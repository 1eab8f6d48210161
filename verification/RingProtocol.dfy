/**
 * A Ring shared with the host controller, store by store.  The controller follows cycle bits and Link
 * TRBs (section 4.9.2 of the xHCI specification) and may run between any two 32-bit stores of a Push.
 */
module RingProtocol {
  import opened Trbs
  import opened Rings

  /**
   * `todo` holds the stores of the current Push that have not reached memory yet.  `sent` is every TRB
   * passed to Push so far, `got` every TRB the controller has consumed, as it read it.
   */
  datatype Sys = Sys(prod: Producer, deq: nat, ccs: bool, got: seq<Trb>)
  datatype Producer = Producer(ring: RingState, todo: seq<WordWrite>, sent: seq<Trb>)

  /** A fresh ring: zeroed memory, both sides at entry 0 with cycle state 1. */
  predicate Init(s: Sys) {
    var r := s.prod.ring;
    && RingOk(r) && r.base % 16 == 0
    && (forall i :: 0 <= i < |r.mem| ==> r.mem[i] == ZERO)
    && r.writeIndex == 0 && r.cycleBit
    && s.prod.todo == [] && s.prod.sent == []
    && s.deq == 0 && s.ccs && s.got == []
  }

  /** A ring nobody has used: what Ring::Initialize leaves, with the controller pointed at its first entry. */
  function Fresh(r: RingState): Sys {
    Sys(Producer(r, [], []), 0, true, [])
  }

  lemma InitializedRingIsFresh(n: nat, base: Address)
    requires n >= 2 && base % 64 == 0
    ensures Init(Fresh(RingState(seq(n, _ => ZERO), base, 0, true)))
  {
    var mem := seq(n, _ => ZERO);
    assert base == 16 * (4 * (base / 64));
    forall i | 0 <= i < n ensures mem[i] == ZERO {
    }
  }

  /** Number of data entries; the last entry of the ring is for the Link TRB. */
  function M(p: Producer): int { |p.ring.mem| - 1 }

  /** TRBs pushed and not yet consumed. */
  function Outstanding(s: Sys): int { |s.prod.sent| - |s.got| }

  /** There is room for one more TRB; one less while the controller has not followed the Link TRB. */
  predicate Room(s: Sys) {
    Outstanding(s) < M(s.prod) && (s.deq == M(s.prod) ==> Outstanding(s) < M(s.prod) - 1)
  }

  // ---- steps ----

  function Begun(p: Producer, data: Trb): Producer {
    var r, n := p.ring, |p.ring.mem|;
    Producer(r.(writeIndex := NextIndex(n, r.writeIndex), cycleBit := NextCycle(n, r.writeIndex, r.cycleBit)),
             PushWrites(n, r.base, r.writeIndex, r.cycleBit, data), p.sent + [data])
  }

  /** Push is called: the producer's registers are private, so they move at once. */
  predicate Begin(p: Producer, p': Producer, data: Trb) {
    p.todo == [] && RingOk(p.ring) && TypeOf(data) != LINK && p' == Begun(p, data)
  }

  /** The next store of the current Push reaches memory. */
  predicate StoreNext(p: Producer, p': Producer) {
    && p.todo != [] && WriteOk(|p.ring.mem|, p.todo[0])
    && p' == p.(ring := p.ring.(mem := Store(p.ring.mem, p.todo[0])), todo := p.todo[1..])
  }

  /** The controller owns the entry at its dequeue pointer. */
  predicate HcOwns(s: Sys) {
    s.deq < |s.prod.ring.mem| && CycleOf(s.prod.ring.mem[s.deq]) == s.ccs
  }

  /** The controller consumes the entry, or follows it when it is a Link TRB. */
  predicate HcNext(s: Sys, s': Sys) {
    && HcOwns(s)
    && var t := s.prod.ring.mem[s.deq];
       if TypeOf(t) == LINK then
         && s'.deq < |s.prod.ring.mem| && Pointer16(t) == s.prod.ring.base + 16 * s'.deq
         && s' == s.(deq := s'.deq, ccs := if ToggleOf(t) then !s.ccs else s.ccs)
       else
         s' == s.(deq := s.deq + 1, got := s.got + [t])
  }

  /** A step of the producer leaves the controller's registers alone. */
  predicate ProducerMoves(s: Sys, s': Sys) {
    s' == s.(prod := s'.prod)
  }

  /** Any step in which Push is only called when there is room. */
  ghost predicate Next(s: Sys, s': Sys) {
    || (ProducerMoves(s, s') && Room(s) && exists data :: Begin(s.prod, s'.prod, data))
    || (ProducerMoves(s, s') && StoreNext(s.prod, s'.prod))
    || HcNext(s, s')
  }

  ghost predicate Run(run: seq<Sys>) {
    && |run| > 0 && Init(run[0])
    && forall i :: 0 <= i < |run| - 1 ==> Next(run[i], run[i + 1])
  }

  // ---- invariant: the producer's side ----

  /** The last Push filled the final data entry, so it also writes the Link TRB. */
  predicate WritesLink(p: Producer) { p.ring.writeIndex == 0 }

  /** Stores of the current Push that come after its own TRB. */
  function LinkStores(p: Producer): int { if WritesLink(p) then 4 else 0 }

  /** The store that publishes the TRB of the current Push is still to come. */
  predicate DataPending(p: Producer) { |p.todo| > LinkStores(p) }

  predicate LinkPending(p: Producer) { WritesLink(p) && |p.todo| > 0 }

  /** Where the current (or last) Push put its TRB. */
  function LastIndex(p: Producer): int { if WritesLink(p) then M(p) - 1 else p.ring.writeIndex - 1 }
  function LastCycle(p: Producer): bool { if WritesLink(p) then !p.ring.cycleBit else p.ring.cycleBit }

  /** End of the published TRBs: index and cycle bit the next one will carry. */
  function VisIndex(p: Producer): int { if DataPending(p) then LastIndex(p) else p.ring.writeIndex }
  function VisCycle(p: Producer): bool { if DataPending(p) then LastCycle(p) else p.ring.cycleBit }
  function VisCount(p: Producer): int { if DataPending(p) then |p.sent| - 1 else |p.sent| }

  /** Published TRBs still in memory; the one under the current stores is gone. */
  function Window(p: Producer): int { if DataPending(p) then M(p) - 1 else M(p) }

  /** Data entry, in a ring of n entries, of the TRB published d pushes before `index`. */
  function Back(n: int, index: int, d: int): int { if d <= index then index - d else index - d + n - 1 }

  /** Cycle bit of the Link TRB as last completed, and whether it ever was. */
  function LinkCycle(p: Producer): bool { if LinkPending(p) then p.ring.cycleBit else !p.ring.cycleBit }
  predicate LinkWritten(p: Producer) { |p.sent| > M(p) || (|p.sent| == M(p) && |p.todo| == 0) }

  predicate ShapeInv(p: Producer) {
    && RingOk(p.ring) && p.ring.base % 16 == 0
    && (forall i :: 0 <= i < |p.sent| ==> TypeOf(p.sent[i]) != LINK)
    && |p.todo| <= 4 + LinkStores(p)
    && (|p.todo| > 0 ==> |p.sent| > 0)
    && (|p.sent| < M(p) ==> p.ring.writeIndex == |p.sent| && p.ring.cycleBit)
    && (|p.sent| == M(p) ==> p.ring.writeIndex == 0 && !p.ring.cycleBit)
  }

  /** Store number j of the current Push. */
  function NthStore(p: Producer, j: int): WordWrite
    requires 0 <= j < 8 && |p.sent| > 0 && RingOk(p.ring)
  {
    if j < 4 then WordWrite(LastIndex(p), j, WordOf(Stamp(p.sent[|p.sent| - 1], LastCycle(p)), j))
    else WordWrite(M(p), j - 4, WordOf(Stamp(LinkTrb(p.ring.base), LastCycle(p)), j - 4))
  }

  /** The stores still to come are the last ones of the current Push. */
  predicate TodoInv(p: Producer)
    requires ShapeInv(p)
  {
    forall j :: 0 <= j < |p.todo| ==> p.todo[j] == NthStore(p, 4 + LinkStores(p) - |p.todo| + j)
  }

  /** Data entries before the end carry the current cycle bit, the others the previous one. */
  predicate CycleInv(mem: seq<Trb>, index: int, cycle: bool) {
    forall i :: 0 <= i < |mem| - 1 ==> CycleOf(mem[i]) == if i < index then cycle else !cycle
  }

  /** The last `window` of the `count` published TRBs are in memory, right before the end. */
  predicate WindowInv(mem: seq<Trb>, sent: seq<Trb>, index: int, count: int, window: int)
    requires 0 <= index < |mem| - 1 && count <= |sent| && window < |mem|
  {
    forall d {:trigger Back(|mem|, index, d)} :: 1 <= d <= count && d <= window ==>
      SameButCycle(mem[Back(|mem|, index, d)], sent[count - d])
  }

  predicate LinkInv(link: Trb, base: Address, cycle: bool, written: bool) {
    CycleOf(link) == cycle && (written ==> SameButCycle(link, LinkTrb(base)))
  }

  /** The first `count` words have been stored. */
  predicate WordsWritten(t: Trb, data: Trb, count: int) {
    && (count > 0 ==> t.w0 == data.w0)
    && (count > 1 ==> t.w1 == data.w1)
    && (count > 2 ==> t.w2 == data.w2)
  }

  predicate PartialInv(p: Producer)
    requires ShapeInv(p)
  {
    && (DataPending(p) ==> WordsWritten(p.ring.mem[LastIndex(p)], p.sent[|p.sent| - 1], 4 + LinkStores(p) - |p.todo|))
    && (LinkPending(p) && !DataPending(p) ==> WordsWritten(p.ring.mem[M(p)], LinkTrb(p.ring.base), 4 - |p.todo|))
  }

  predicate MemInv(p: Producer)
    requires ShapeInv(p)
  {
    && CycleInv(p.ring.mem, VisIndex(p), VisCycle(p))
    && WindowInv(p.ring.mem, p.sent, VisIndex(p), VisCount(p), Window(p))
    && LinkInv(p.ring.mem[M(p)], p.ring.base, LinkCycle(p), LinkWritten(p))
  }

  predicate ProducerInv(p: Producer) {
    ShapeInv(p) && TodoInv(p) && PartialInv(p) && MemInv(p)
  }

  // ---- invariant: the controller's side ----

  /** The controller's position as a data entry: waiting at the Link TRB means entry 0 of the next lap. */
  function HcIndex(s: Sys): int { if s.deq == M(s.prod) then 0 else s.deq }
  function HcCycle(s: Sys): bool { if s.deq == M(s.prod) then !s.ccs else s.ccs }

  /** `f` entries after (index, cycle) on a ring of m data entries lies (index', cycle'). */
  predicate Ahead(m: int, index: int, cycle: bool, f: int, index': int, cycle': bool) {
    if index + f < m then index' == index + f && cycle' == cycle else index' == index + f - m && cycle' == !cycle
  }

  predicate HcInv(s: Sys) {
    var p := s.prod;
    && s.deq <= M(p) && |s.got| <= VisCount(p) && Outstanding(s) <= M(p)
    && (s.deq == M(p) ==> Outstanding(s) < M(p))
    && Ahead(M(p), HcIndex(s), HcCycle(s), VisCount(p) - |s.got|, VisIndex(p), VisCycle(p))
    && (|s.got| < M(p) ==> s.ccs && s.deq == |s.got|)
    && (|s.got| == M(p) && s.deq == M(p) ==> s.ccs)
  }

  /** What was consumed is what was pushed, in order. */
  predicate Delivered(s: Sys) {
    |s.got| <= |s.prod.sent| && forall i :: 0 <= i < |s.got| ==> SameButCycle(s.got[i], s.prod.sent[i])
  }

  predicate Inv(s: Sys) {
    ProducerInv(s.prod) && HcInv(s) && Delivered(s)
  }

  lemma InitInv(s: Sys)
    requires Init(s)
    ensures Inv(s)
  {
  }

  lemma BegunStores(p: Producer, p': Producer, data: Trb)
    requires ShapeInv(p) && Begin(p, p', data)
    ensures ShapeInv(p') && TodoInv(p')
  {
    assert LastIndex(p') == p.ring.writeIndex && LastCycle(p') == p.ring.cycleBit;
    assert |p'.todo| == 4 + LinkStores(p');
  }

  lemma BeginKeepsProducerInv(p: Producer, p': Producer, data: Trb)
    requires ProducerInv(p) && Begin(p, p', data)
    ensures ProducerInv(p') && SameEnd(p, p')
  {
    BegunStores(p, p', data);
    assert VisIndex(p') == VisIndex(p) && VisCycle(p') == VisCycle(p);
    WindowFrame(p.ring.mem, p'.ring.mem, p'.sent, VisIndex(p), VisCount(p), Window(p'));
  }

  /** Nothing has been published between p and p'. */
  predicate SameEnd(p: Producer, p': Producer) {
    && M(p') == M(p) && p.sent <= p'.sent
    && VisIndex(p') == VisIndex(p) && VisCycle(p') == VisCycle(p) && VisCount(p') == VisCount(p)
  }

  lemma HcInvAtSameEnd(s: Sys, s': Sys)
    requires HcInv(s) && ProducerMoves(s, s') && SameEnd(s.prod, s'.prod)
    requires |s'.prod.sent| == |s.prod.sent| + 1 && Room(s)
    ensures HcInv(s')
  {
  }

  lemma BeginKeepsInv(s: Sys, s': Sys, data: Trb)
    requires Inv(s) && ProducerMoves(s, s') && Begin(s.prod, s'.prod, data) && Room(s)
    ensures Inv(s')
  {
    BeginKeepsProducerInv(s.prod, s'.prod, data);
    HcInvAtSameEnd(s, s');
  }

  /** An owned data entry holds the oldest TRB not yet consumed. */
  lemma OwnedEntry(s: Sys)
    requires Inv(s) && HcOwns(s) && s.deq < M(s.prod)
    ensures |s.got| < VisCount(s.prod) && SameButCycle(s.prod.ring.mem[s.deq], s.prod.sent[|s.got|])
    ensures TypeOf(s.prod.ring.mem[s.deq]) != LINK
  {
    var f := VisCount(s.prod) - |s.got|;
    assert f > 0;
    assert f <= Window(s.prod);
    assert Back(|s.prod.ring.mem|, VisIndex(s.prod), f) == s.deq;
    SameButCycleReads(s.prod.ring.mem[s.deq], s.prod.sent[|s.got|]);
  }

  /** An owned Link entry is complete and points back to entry 0. */
  lemma OwnedLink(s: Sys)
    requires Inv(s) && HcOwns(s) && s.deq == M(s.prod)
    ensures LinkWritten(s.prod)
    ensures var t := s.prod.ring.mem[s.deq]; TypeOf(t) == LINK && ToggleOf(t) && Pointer16(t) == s.prod.ring.base
  {
    LinkPointerRoundTrip(s.prod.ring.base);
    SameButCycleReads(s.prod.ring.mem[s.deq], LinkTrb(s.prod.ring.base));
  }

  lemma HcKeepsInv(s: Sys, s': Sys)
    requires Inv(s) && HcNext(s, s')
    ensures Inv(s')
  {
    if s.deq < M(s.prod) {
      OwnedEntry(s);
    } else {
      OwnedLink(s);
    }
  }

  /** p' is p after storing v as word k of entry i. */
  predicate Stored(p: Producer, p': Producer, i: int, k: int, v: Word) {
    && 0 <= i < |p.ring.mem| && 0 <= k < 4
    && p'.ring == p.ring.(mem := p.ring.mem[i := WithWord(p.ring.mem[i], k, v)])
    && p'.sent == p.sent && |p'.todo| == |p.todo| - 1
  }

  /** The next store of a Push, named by its position in the sequence. */
  lemma NextStore(p: Producer, p': Producer)
    requires ShapeInv(p) && TodoInv(p) && StoreNext(p, p')
    ensures ShapeInv(p')
    ensures if DataPending(p) then
              var k := 4 + LinkStores(p) - |p.todo|;
              Stored(p, p', LastIndex(p), k, WordOf(Stamp(p.sent[|p.sent| - 1], LastCycle(p)), k))
            else
              var k := 4 - |p.todo|;
              Stored(p, p', M(p), k, WordOf(Stamp(LinkTrb(p.ring.base), LastCycle(p)), k))
  {
  }

  lemma RestStillToCome(p: Producer, p': Producer)
    requires ShapeInv(p) && TodoInv(p) && StoreNext(p, p') && ShapeInv(p')
    ensures TodoInv(p')
  {
    forall j | 0 <= j < |p'.todo|
      ensures p'.todo[j] == NthStore(p', 4 + LinkStores(p') - |p'.todo| + j)
    {
      assert p'.todo[j] == p.todo[j + 1];
    }
  }

  /** Entries outside the window may change freely. */
  lemma WindowFrame(mem: seq<Trb>, mem': seq<Trb>, sent: seq<Trb>, index: int, count: int, window: int)
    requires |mem'| == |mem| && 0 <= index < |mem| - 1 && count <= |sent| && window < |mem|
    requires WindowInv(mem, sent, index, count, window)
    requires forall i :: 0 <= i < |mem| - 1 && (window < |mem| - 1 ==> i != index) ==> mem'[i] == mem[i]
    ensures WindowInv(mem', sent, index, count, window)
  {
    forall d {:trigger Back(|mem|, index, d)} | 1 <= d <= count && d <= window
      ensures SameButCycle(mem'[Back(|mem|, index, d)], sent[count - d])
    {
      assert mem'[Back(|mem|, index, d)] == mem[Back(|mem|, index, d)];
    }
  }

  /** Words 0..2 of the data entry: nothing is published. */
  lemma StoreDataWord(p: Producer, p': Producer)
    requires ShapeInv(p) && PartialInv(p) && MemInv(p) && ShapeInv(p') && |p.todo| > LinkStores(p) + 1
    requires var k := 4 + LinkStores(p) - |p.todo|;
             Stored(p, p', LastIndex(p), k, WordOf(Stamp(p.sent[|p.sent| - 1], LastCycle(p)), k))
    ensures PartialInv(p') && MemInv(p')
  {
    hide StampWord, LinkTrb, TypeOf, SameButCycle;
    WindowFrame(p.ring.mem, p'.ring.mem, p.sent, VisIndex(p), VisCount(p), Window(p));
  }

  /** Publishing one more TRB moves the end of the window over it. */
  lemma WindowGrows(mem: seq<Trb>, t: Trb, sent: seq<Trb>, index: int, count: int, index': int)
    requires 0 <= index < |mem| - 1 && 0 <= count < |sent|
    requires index' == if index + 2 == |mem| then 0 else index + 1
    requires WindowInv(mem, sent, index, count, |mem| - 2) && SameButCycle(t, sent[count])
    ensures WindowInv(mem[index := t], sent, index', count + 1, |mem| - 1)
  {
    forall d {:trigger Back(|mem|, index', d)} | 1 <= d <= count + 1 && d < |mem|
      ensures SameButCycle(mem[index := t][Back(|mem|, index', d)], sent[count + 1 - d])
    {
      if d > 1 {
        assert Back(|mem|, index', d) == Back(|mem|, index, d - 1);
      }
    }
  }

  /** Word 3 of the data entry publishes the TRB. */
  lemma StoreDataCycle(p: Producer, p': Producer)
    requires ShapeInv(p) && PartialInv(p) && MemInv(p) && ShapeInv(p') && |p.todo| == LinkStores(p) + 1
    requires Stored(p, p', LastIndex(p), 3, StampWord(p.sent[|p.sent| - 1].w3, LastCycle(p)))
    ensures PartialInv(p') && MemInv(p')
  {
    var i := LastIndex(p);
    var t := p'.ring.mem[i];
    assert SameButCycle(t, p.sent[|p.sent| - 1]) && CycleOf(t) == LastCycle(p);
    WindowGrows(p.ring.mem, t, p.sent, i, VisCount(p), VisIndex(p'));
  }

  /** Words 0..2 of the Link entry: if it was written before, they do not change. */
  lemma StoreLinkWord(p: Producer, p': Producer)
    requires ShapeInv(p) && PartialInv(p) && MemInv(p) && ShapeInv(p') && 1 < |p.todo| <= LinkStores(p)
    requires var k := 4 - |p.todo|; Stored(p, p', M(p), k, WordOf(LinkTrb(p.ring.base), k))
    ensures PartialInv(p') && MemInv(p')
  {
    WindowFrame(p.ring.mem, p'.ring.mem, p.sent, VisIndex(p), VisCount(p), Window(p));
  }

  /** Word 3 of the Link entry hands the lap over. */
  lemma StoreLinkCycle(p: Producer, p': Producer)
    requires ShapeInv(p) && PartialInv(p) && MemInv(p) && ShapeInv(p') && |p.todo| == 1 && LinkStores(p) > 0
    requires Stored(p, p', M(p), 3, StampWord(LinkTrb(p.ring.base).w3, LastCycle(p)))
    ensures PartialInv(p') && MemInv(p')
  {
    WindowFrame(p.ring.mem, p'.ring.mem, p.sent, VisIndex(p), VisCount(p), Window(p));
  }

  lemma StoreKeepsProducerInv(p: Producer, p': Producer)
    requires ProducerInv(p) && StoreNext(p, p')
    ensures ProducerInv(p')
  {
    NextStore(p, p');
    RestStillToCome(p, p');
    if |p.todo| > LinkStores(p) + 1 {
      StoreDataWord(p, p');
    } else if |p.todo| == LinkStores(p) + 1 {
      StoreDataCycle(p, p');
    } else if |p.todo| > 1 {
      StoreLinkWord(p, p');
    } else {
      StoreLinkCycle(p, p');
    }
  }

  /** A store publishes at most one TRB and moves the end accordingly. */
  lemma StoreMovesEnd(s: Sys, s': Sys)
    requires ShapeInv(s.prod) && ShapeInv(s'.prod) && HcInv(s) && ProducerMoves(s, s') && s.prod.todo != []
    requires s'.prod.ring == s.prod.ring.(mem := s'.prod.ring.mem) && |s'.prod.ring.mem| == |s.prod.ring.mem|
    requires s'.prod.sent == s.prod.sent && |s'.prod.todo| == |s.prod.todo| - 1
    ensures HcInv(s')
  {
  }

  lemma StoreKeepsInv(s: Sys, s': Sys)
    requires Inv(s) && ProducerMoves(s, s') && StoreNext(s.prod, s'.prod)
    ensures Inv(s')
  {
    StoreKeepsProducerInv(s.prod, s'.prod);
    StoreMovesEnd(s, s');
  }

  // ---- the producer alone ----

  /** A whole Push keeps the memory invariant; in particular the last n - 1 TRBs stay readable. */
  lemma PushedKeepsProducerInv(r: RingState, sent: seq<Trb>, data: Trb)
    requires ProducerInv(Producer(r, [], sent)) && TypeOf(data) != LINK
    ensures ProducerInv(Producer(Pushed(r, data), [], sent + [data]))
  {
    hide CycleOf, StampWord, SameButCycle, LinkTrb, Stamp, TypeOf;
    var p, p' := Producer(r, [], sent), Producer(Pushed(r, data), [], sent + [data]);
    var w, t := r.writeIndex, Stamp(data, r.cycleBit);
    var mem := r.mem[w := t];
    WindowFrame(r.mem, r.mem, sent + [data], w, |sent|, |r.mem| - 2);
    WindowGrows(r.mem, t, sent + [data], w, |sent|, p'.ring.writeIndex);
    WindowFrame(mem, p'.ring.mem, sent + [data], p'.ring.writeIndex, |sent| + 1, |r.mem| - 1);
    assert p'.ring.mem == if w + 2 == |r.mem| then mem[|mem| - 1 := Stamp(LinkTrb(r.base), r.cycleBit)] else mem;
  }

  function StoreAll(mem: seq<Trb>, ws: seq<WordWrite>): (r: seq<Trb>)
    requires forall i :: 0 <= i < |ws| ==> WriteOk(|mem|, ws[i])
    ensures |r| == |mem|
    decreases |ws|
  {
    if ws == [] then mem else StoreAll(Store(mem, ws[0]), ws[1..])
  }

  lemma StoreFirst(mem: seq<Trb>, w: WordWrite, ws: seq<WordWrite>)
    requires WriteOk(|mem|, w) && forall i :: 0 <= i < |ws| ==> WriteOk(|mem|, ws[i])
    ensures (forall i :: 0 <= i < |[w] + ws| ==> WriteOk(|mem|, ([w] + ws)[i]))
    ensures StoreAll(mem, [w] + ws) == StoreAll(Store(mem, w), ws)
  {
    assert ([w] + ws)[1..] == ws;
  }

  lemma FourStores(mem: seq<Trb>, a: WordWrite, b: WordWrite, c: WordWrite, d: WordWrite, rest: seq<WordWrite>)
    requires WriteOk(|mem|, a) && WriteOk(|mem|, b) && WriteOk(|mem|, c) && WriteOk(|mem|, d)
    requires forall i :: 0 <= i < |rest| ==> WriteOk(|mem|, rest[i])
    ensures forall i :: 0 <= i < 4 + |rest| ==> WriteOk(|mem|, ([a, b, c, d] + rest)[i])
    ensures StoreAll(mem, [a, b, c, d] + rest) == StoreAll(Store(Store(Store(Store(mem, a), b), c), d), rest)
  {
    var r3 := [d] + rest;
    var r2 := [c] + r3;
    var r1 := [b] + r2;
    StoreFirst(mem, a, r1);
    StoreFirst(Store(mem, a), b, r2);
    StoreFirst(Store(Store(mem, a), b), c, r3);
    StoreFirst(Store(Store(Store(mem, a), b), c), d, rest);
    assert [a, b, c, d] + rest == [a] + r1;
  }

  /** The four stores of one TRB leave exactly that TRB in the entry. */
  lemma FourWords(mem: seq<Trb>, i: nat, t: Trb)
    requires i < |mem|
    ensures var ws := TrbWrites(i, t); Store(Store(Store(Store(mem, ws[0]), ws[1]), ws[2]), ws[3]) == mem[i := t]
  {
  }

  lemma TrbWritesStoreTrb(mem: seq<Trb>, i: nat, t: Trb, rest: seq<WordWrite>)
    requires i < |mem| && forall j :: 0 <= j < |rest| ==> WriteOk(|mem|, rest[j])
    ensures forall j :: 0 <= j < 4 + |rest| ==> WriteOk(|mem|, (TrbWrites(i, t) + rest)[j])
    ensures StoreAll(mem, TrbWrites(i, t) + rest) == StoreAll(mem[i := t], rest)
  {
    var ws := TrbWrites(i, t);
    FourStores(mem, ws[0], ws[1], ws[2], ws[3], rest);
    FourWords(mem, i, t);
    assert ws == [ws[0], ws[1], ws[2], ws[3]];
  }

  /** The stores of a Push, in order, amount to the update that Push is specified by. */
  lemma StoresAmountToPush(r: RingState, data: Trb)
    requires RingOk(r)
    ensures var ws := PushWrites(|r.mem|, r.base, r.writeIndex, r.cycleBit, data);
            (forall i :: 0 <= i < |ws| ==> WriteOk(|r.mem|, ws[i])) && StoreAll(r.mem, ws) == Pushed(r, data).mem
  {
    var n, w := |r.mem|, r.writeIndex;
    var t, l := Stamp(data, r.cycleBit), Stamp(LinkTrb(r.base), r.cycleBit);
    var rest := if w + 2 == n then TrbWrites(n - 1, l) else [];
    TrbWritesStoreTrb(r.mem, w, t, rest);
    if w + 2 == n {
      assert TrbWrites(n - 1, l) + [] == TrbWrites(n - 1, l);
      TrbWritesStoreTrb(r.mem[w := t], n - 1, l, []);
    }
  }

  // ---- what holds in every run ----

  lemma NextKeepsInv(s: Sys, s': Sys)
    requires Inv(s) && Next(s, s')
    ensures Inv(s')
  {
    if ProducerMoves(s, s') && Room(s) && exists data :: Begin(s.prod, s'.prod, data) {
      var data :| Begin(s.prod, s'.prod, data);
      BeginKeepsInv(s, s', data);
    } else if ProducerMoves(s, s') && StoreNext(s.prod, s'.prod) {
      StoreKeepsInv(s, s');
    } else {
      HcKeepsInv(s, s');
    }
  }

  lemma {:induction false} RunKeepsInv(run: seq<Sys>, i: nat)
    requires Run(run) && i < |run|
    ensures Inv(run[i])
  {
    if i == 0 {
      InitInv(run[0]);
    } else {
      RunKeepsInv(run, i - 1);
      assert Next(run[i - 1], run[(i - 1) + 1]);
      NextKeepsInv(run[i - 1], run[i]);
    }
  }

  /**
   * In every interleaving the controller has consumed, in order, exactly a prefix of the TRBs pushed, each
   * with all four words as pushed except the cycle bit: never a half-written or overwritten one.
   */
  lemma ConsumesWhatWasPushed(run: seq<Sys>, i: nat)
    requires Run(run) && i < |run|
    ensures |run[i].got| <= |run[i].prod.sent|
    ensures forall k :: 0 <= k < |run[i].got| ==> SameButCycle(run[i].got[k], run[i].prod.sent[k])
  {
    RunKeepsInv(run, i);
  }

  /** Keeping at most buf_size - 2 TRBs outstanding, counting the new one, always leaves room. */
  lemma BoundLeavesRoom(s: Sys)
    requires Outstanding(s) + 1 <= |s.prod.ring.mem| - 2
    ensures Room(s)
  {
  }

  function AfterHc(s: Sys): (s': Sys)
    requires HcOwns(s)
  {
    var t := s.prod.ring.mem[s.deq];
    if TypeOf(t) == LINK then s.(deq := 0, ccs := if ToggleOf(t) then !s.ccs else s.ccs)
    else s.(deq := s.deq + 1, got := s.got + [t])
  }

  /** Between two Pushes the controller is never stuck: whenever something is outstanding it owns its entry, and at
      most two of its steps consume the oldest outstanding TRB. */
  lemma NeverStuck(s: Sys)
    requires Inv(s) && s.prod.todo == [] && |s.got| < |s.prod.sent|
    ensures HcOwns(s) && HcNext(s, AfterHc(s))
    ensures var s1 := AfterHc(s);
            if s.deq < M(s.prod) then |s1.got| == |s.got| + 1
            else HcOwns(s1) && HcNext(s1, AfterHc(s1)) && |AfterHc(s1).got| == |s.got| + 1
  {
    if s.deq < M(s.prod) {
      OwnedEntry(s);
    } else {
      OwnedLink(s);
      var s1 := AfterHc(s);
      assert Pointer16(s.prod.ring.mem[s.deq]) == s.prod.ring.base + 16 * s1.deq;
      HcKeepsInv(s, s1);
      OwnedEntry(s1);
    }
  }

  /** With nothing outstanding the controller never mistakes an old entry for a new one. */
  lemma NothingInvented(s: Sys)
    requires Inv(s) && s.deq < M(s.prod) && |s.got| == VisCount(s.prod)
    ensures !HcOwns(s)
  {
  }

  /** A store never touches an entry the controller may still read. */
  lemma OwnedEntriesAreStable(s: Sys, s': Sys, d: int)
    requires Inv(s) && ProducerMoves(s, s') && StoreNext(s.prod, s'.prod)
    requires 1 <= d <= VisCount(s.prod) - |s.got|
    ensures var i := Back(|s.prod.ring.mem|, VisIndex(s.prod), d);
            0 <= i < M(s.prod) && s'.prod.ring.mem[i] == s.prod.ring.mem[i]
  {
    NextStore(s.prod, s'.prod);
  }

  // ---- Room is exactly the condition for a safe Push ----

  /** One call of Push from run[0], its stores in any interleaving with the controller; the call may be unguarded. */
  ghost predicate PushRun(run: seq<Sys>) {
    && |run| >= 2 && ProducerMoves(run[0], run[1]) && (exists data :: Begin(run[0].prod, run[1].prod, data))
    && forall i :: 1 <= i < |run| - 1 ==> InnerStep(run[i], run[i + 1])
  }

  ghost predicate InnerStep(s: Sys, s': Sys) {
    (ProducerMoves(s, s') && StoreNext(s.prod, s'.prod)) || HcNext(s, s')
  }

  /** Nothing wrong was consumed, and the controller can go on when something is outstanding. */
  predicate Healthy(s: Sys) {
    Delivered(s) && (s.prod.todo == [] && |s.got| < |s.prod.sent| ==> HcOwns(s))
  }

  lemma {:induction false} PushRunKeepsInv(run: seq<Sys>, i: nat)
    requires PushRun(run) && Inv(run[0]) && Room(run[0]) && i < |run|
    ensures Inv(run[i])
  {
    if i == 1 {
      assert Next(run[0], run[1]);
      NextKeepsInv(run[0], run[1]);
    } else if i > 1 {
      PushRunKeepsInv(run, i - 1);
      assert InnerStep(run[i - 1], run[(i - 1) + 1]);
      NextKeepsInv(run[i - 1], run[i]);
    }
  }

  lemma HealthyWhenInv(s: Sys)
    requires Inv(s)
    ensures Healthy(s)
  {
    if s.prod.todo == [] && |s.got| < |s.prod.sent| { NeverStuck(s); }
  }

  lemma FirstStoreOk(p: Producer)
    requires ProducerInv(p) && p.todo != []
    ensures WriteOk(|p.ring.mem|, p.todo[0])
  {
  }

  /** Lets the remaining stores of a Push reach memory without any controller step. */
  lemma {:induction false} Drain(s: Sys) returns (run: seq<Sys>)
    requires ProducerInv(s.prod)
    ensures |run| > 0 && run[0] == s && forall i :: 0 <= i < |run| - 1 ==> InnerStep(run[i], run[i + 1])
    ensures var e := run[|run| - 1];
            && ProducerInv(e.prod) && e.prod.todo == [] && e.prod.sent == s.prod.sent && ProducerMoves(s, e)
            && e.prod.ring.(mem := s.prod.ring.mem) == s.prod.ring && |e.prod.ring.mem| == |s.prod.ring.mem|
    decreases |s.prod.todo|
  {
    hide ProducerInv, Store;
    if s.prod.todo == [] {
      run := [s];
    } else {
      FirstStoreOk(s.prod);
      var p' := s.prod.(ring := s.prod.ring.(mem := Store(s.prod.ring.mem, s.prod.todo[0])), todo := s.prod.todo[1..]);
      assert StoreNext(s.prod, p');
      StoreKeepsProducerInv(s.prod, p');
      var s' := s.(prod := p');
      assert InnerStep(s, s');
      var rest := Drain(s');
      run := [s] + rest;
    }
  }

  /** A full ring: the first store of the new TRB is read as part of the oldest outstanding one. */
  lemma FullRingCorrupts(s: Sys) returns (run: seq<Sys>)
    requires Inv(s) && s.prod.todo == [] && s.deq < M(s.prod) && Outstanding(s) == M(s.prod)
    ensures PushRun(run) && run[0] == s && !Delivered(run[|run| - 1])
  {
    OwnedEntryWhenFull(s);
    OwnedEntry(s);
    var old0 := s.prod.ring.mem[s.deq].w0;
    var data := Trb(if old0 == 0 then 1 else 0, 0, 0, NORMAL * 1024);
    var p1 := Begun(s.prod, data);
    assert Begin(s.prod, p1, data);
    assert p1.todo[0] == WordWrite(s.deq, 0, data.w0);
    var p2 := p1.(ring := p1.ring.(mem := Store(p1.ring.mem, p1.todo[0])), todo := p1.todo[1..]);
    assert StoreNext(p1, p2);
    var s1, s2 := s.(prod := p1), s.(prod := p2);
    var t := p2.ring.mem[s.deq];
    assert t == s.prod.ring.mem[s.deq].(w0 := data.w0);
    var s3 := s2.(deq := s2.deq + 1, got := s2.got + [t]);
    assert HcNext(s2, s3);
    assert InnerStep(s1, s2) && InnerStep(s2, s3);
    run := [s, s1, s2, s3];
    assert s3.got[|s.got|] == t && s3.prod.sent[|s.got|] == s.prod.sent[|s.got|];
  }

  lemma OwnedEntryWhenFull(s: Sys)
    requires Inv(s) && s.prod.todo == [] && s.deq < M(s.prod) && Outstanding(s) == M(s.prod)
    ensures HcOwns(s) && s.prod.ring.writeIndex == s.deq
  {
  }

  lemma PrependPush(s: Sys, s1: Sys, data: Trb, rest: seq<Sys>)
    requires ProducerMoves(s, s1) && Begin(s.prod, s1.prod, data)
    requires |rest| > 0 && rest[0] == s1 && forall i :: 0 <= i < |rest| - 1 ==> InnerStep(rest[i], rest[i + 1])
    ensures PushRun([s] + rest)
  {
    var run := [s] + rest;
    assert run[1] == s1;
    forall i | 1 <= i < |run| - 1 ensures InnerStep(run[i], run[i + 1]) {
      assert run[i] == rest[i - 1] && run[i + 1] == rest[(i - 1) + 1];
    }
  }

  /** The last data entry comes next, and the controller still expects the Link TRB of the lap before. */
  lemma LaggingPosition(s: Sys)
    requires Inv(s) && s.prod.todo == [] && s.deq == M(s.prod) && Outstanding(s) == M(s.prod) - 1
    ensures s.prod.ring.writeIndex + 2 == |s.prod.ring.mem| && s.prod.ring.cycleBit == !s.ccs
  {
  }

  lemma LinkNotOwned(s: Sys)
    requires ProducerInv(s.prod) && s.prod.todo == [] && s.deq == M(s.prod) && s.prod.ring.cycleBit == s.ccs
    ensures !HcOwns(s)
  {
  }

  /** One entry less while the controller waits at the Link TRB: rewriting the Link TRB strands it. */
  lemma LaggingRingStrands(s: Sys) returns (run: seq<Sys>)
    requires Inv(s) && s.prod.todo == [] && s.deq == M(s.prod) && Outstanding(s) == M(s.prod) - 1
    ensures PushRun(run) && run[0] == s
    ensures var e := run[|run| - 1]; e.prod.todo == [] && |e.got| < |e.prod.sent| && !HcOwns(e)
  {
    var data := Trb(0, 0, 0, NORMAL * 1024);
    LaggingPosition(s);
    var s1 := s.(prod := Begun(s.prod, data));
    assert Begin(s.prod, s1.prod, data);
    BeginKeepsProducerInv(s.prod, s1.prod, data);
    var rest := Drain(s1);
    PrependPush(s, s1, data, rest);
    run := [s] + rest;
    assert run[|run| - 1] == rest[|rest| - 1];
    LinkNotOwned(rest[|rest| - 1]);
  }

  /**
   * Push is safe in every interleaving exactly when there is room: without room some interleaving makes the
   * controller consume a corrupted TRB or leaves it waiting for good with TRBs outstanding.
   */
  lemma RoomIsExact(s: Sys)
    requires Inv(s) && s.prod.todo == []
    ensures Room(s) <==> (forall run :: PushRun(run) && run[0] == s ==> Healthy(run[|run| - 1]))
  {
    if Room(s) {
      forall run | PushRun(run) && run[0] == s ensures Healthy(run[|run| - 1]) {
        PushRunKeepsInv(run, |run| - 1);
        HealthyWhenInv(run[|run| - 1]);
      }
    } else if s.deq < M(s.prod) {
      var run := FullRingCorrupts(s);
    } else {
      var run := LaggingRingStrands(s);
    }
  }
}
