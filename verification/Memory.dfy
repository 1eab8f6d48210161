/** The USB driver's bump allocator (kernel/usb/memory.cpp). */
module Memory {
  import opened Bits
  import opened Wrappers

  const POOL_SIZE: nat := 4096 * 32

  /** `(value + alignment - 1) & ~(alignment - 1)` on a 64-bit value. */
  function Ceil(value: nat, alignment: nat): nat
    requires 0 < alignment < WORD32
  {
    And((value + alignment - 1) % WORD64, Not64(alignment - 1))
  }

  /** A request to the allocator: 0 stands for "no constraint". */
  datatype Request = Request(size: nat, alignment: nat, boundary: nat)

  /** Rounds the pointer up to the requested alignment. */
  function Align(ptr: nat, r: Request): nat
    requires r.alignment < WORD32
  {
    if r.alignment > 0 then Ceil(ptr, r.alignment) else ptr
  }

  /** Moves the pointer to the next boundary when the block would reach past it. */
  function SkipBoundary(ptr: nat, r: Request): nat
    requires r.boundary < WORD32
  {
    if r.boundary > 0 && Ceil(ptr, r.boundary) < (ptr + r.size) % WORD64 then Ceil(ptr, r.boundary) else ptr
  }

  /** Where the block would start: `alloc_ptr` after both adjustments. */
  function Start(ptr: nat, r: Request): nat
    requires Arguments(r)
  {
    SkipBoundary(Align(ptr, r), r)
  }

  /** `unsigned int` arguments. */
  predicate Arguments(r: Request) {
    r.alignment < WORD32 && r.boundary < WORD32
  }

  class MemoryPool {
    const base: nat   // address of memory_pool
    var allocPtr: nat

    constructor (base: nat)
      ensures this.base == base && allocPtr == base
    {
      this.base := base;
      allocPtr := base;
    }

    /** Fails with None when the block would end past the pool; the pointer keeps its adjustments even then. */
    method AllocMem(size: nat, alignment: nat, boundary: nat) returns (p: Option<nat>)
      requires alignment < WORD32 && boundary < WORD32
      modifies this`allocPtr
      ensures var start := Start(old(allocPtr), Request(size, alignment, boundary));
              && p == Granted(base, start, size)
              && allocPtr == if p.Some? then (start + size) % WORD64 else start
    {
      if alignment > 0 {
        allocPtr := Ceil(allocPtr, alignment);
      }
      if boundary > 0 {
        var nextBoundary := Ceil(allocPtr, boundary);
        if nextBoundary < (allocPtr + size) % WORD64 {
          allocPtr := nextBoundary;
        }
      }
      if base + POOL_SIZE < (allocPtr + size) % WORD64 {
        return None;
      }
      p := Some(allocPtr);
      allocPtr := (allocPtr + size) % WORD64;
    }
  }

  function Granted(base: nat, start: nat, size: nat): Option<nat> {
    if base + POOL_SIZE < (start + size) % WORD64 then None else Some(start)
  }

  // ---- what the documentation of AllocMem promises ----

  ghost predicate ZeroOrPow2(a: nat) {
    a == 0 || IsPow2(a)
  }

  /** Power-of-two constraints and no wrap-around of the address. */
  ghost predicate Sound(ptr: nat, r: Request) {
    && Arguments(r) && ZeroOrPow2(r.alignment) && ZeroOrPow2(r.boundary)
    && ptr + r.alignment + r.boundary + r.size < WORD64
  }

  predicate AlignedTo(p: nat, a: nat) {
    a == 0 || p % a == 0
  }

  /** The block lies in one window between two multiples of the boundary. */
  predicate WithinBoundary(p: nat, size: nat, boundary: nat) {
    boundary == 0 || p % boundary + size <= boundary
  }

  lemma MaskOf(k: nat)
    requires Pow2(k) < WORD32
    ensures k <= 64 && HighMask(64, k) == Not64(Pow2(k) - 1)
  {
    hide And, Pow2;
    Pow2At64();
    Pow2Injective(k, 64);
  }

  /** The mask in Ceil clears the bits below a power of two. */
  lemma CeilMasks(value: nat, k: nat)
    requires Pow2(k) < WORD32 && value + Pow2(k) - 1 < WORD64
    ensures Ceil(value, Pow2(k)) == (value + Pow2(k) - 1) - (value + Pow2(k) - 1) % Pow2(k)
  {
    hide And, HighMask, Pow2;
    var x := value + Pow2(k) - 1;
    MaskOf(k);
    assert x < Pow2(64) by { Pow2At64(); }
    AndClearsLowBits(x, 64, k);
    SmallMod(x, WORD64);
  }

  lemma RoundUp(value: nat, a: nat, c: nat)
    requires a > 0 && c == (value + a - 1) - (value + a - 1) % a
    ensures c % a == 0 && value <= c < value + a && (value % a == 0 ==> c == value)
  {
    var x := value + a - 1;
    var q := x / a;
    assert x == q * a + x % a;
    MultipleMod(q, a);
    if value % a == 0 {
      assert value == (value / a) * a;
      QuotientUnique(x, a, value / a, a - 1);
    }
  }

  /** For a power of two, Ceil is the least multiple that is not below the value. */
  lemma CeilIsLeastMultiple(value: nat, k: nat)
    requires Pow2(k) < WORD32 && value + Pow2(k) - 1 < WORD64
    ensures var c := Ceil(value, Pow2(k));
            c % Pow2(k) == 0 && value <= c < value + Pow2(k) && (value % Pow2(k) == 0 ==> c == value)
  {
    CeilMasks(value, k);
    RoundUp(value, Pow2(k), Ceil(value, Pow2(k)));
  }

  /** A multiple of a power of two is a multiple of every smaller one. */
  lemma CoarserMultiple(p: nat, j: nat, k: nat)
    requires j <= k && p % Pow2(k) == 0
    ensures p % Pow2(j) == 0
  {
    Pow2Divides(j, k);
    MultipleOfMultiple(p, Pow2(k), Pow2(j));
  }

  lemma MultipleOfMultiple(p: nat, n: nat, m: nat)
    requires n > 0 && m > 0 && p % n == 0 && n % m == 0
    ensures p % m == 0
  {
    var q, d := p / n, n / m;
    assert p == q * n && n == d * m;
    Regroup(q, d, m);
    MultipleMod(q * d, m);
  }

  lemma Regroup(q: nat, d: nat, m: nat)
    ensures q * (d * m) == (q * d) * m && q * d >= 0
  {
  }

  lemma AlignMeets(ptr: nat, r: Request)
    requires Sound(ptr, r)
    ensures ptr <= Align(ptr, r) < ptr + r.alignment + 1 && AlignedTo(Align(ptr, r), r.alignment)
  {
    if r.alignment > 0 {
      var k: nat :| r.alignment == Pow2(k);
      CeilIsLeastMultiple(ptr, k);
    }
  }

  lemma SkipKeepsAlignment(q: nat, r: Request)
    requires Arguments(r) && ZeroOrPow2(r.alignment) && ZeroOrPow2(r.boundary)
    requires q + r.boundary + r.size < WORD64 && AlignedTo(q, r.alignment)
    ensures q <= SkipBoundary(q, r) < q + r.boundary + 1 && AlignedTo(SkipBoundary(q, r), r.alignment)
  {
    if r.boundary > 0 {
      var b: nat :| r.boundary == Pow2(b);
      CeilIsLeastMultiple(q, b);
      if r.alignment > 0 {
        var a: nat :| r.alignment == Pow2(a);
        if a <= b {
          CoarserMultiple(Ceil(q, r.boundary), a, b);
        } else {
          CoarserMultiple(q, b, a);
        }
      }
    }
  }

  lemma SkipStaysWithin(q: nat, r: Request)
    requires Arguments(r) && ZeroOrPow2(r.boundary) && q + r.boundary + r.size < WORD64
    requires 0 < r.size <= r.boundary
    ensures WithinBoundary(SkipBoundary(q, r), r.size, r.boundary)
  {
    var m, c := r.boundary, Ceil(q, r.boundary);
    assert c % m == 0 && q <= c < q + m by {
      var b: nat :| m == Pow2(b);
      CeilIsLeastMultiple(q, b);
    }
    SmallMod(q + r.size, WORD64);
    if q + r.size <= c {
      BelowMultiple(q, c, m);
    }
  }

  /** A value less than m below a multiple c of m sits m - (c - q) into its window. */
  lemma BelowMultiple(q: nat, c: nat, m: nat)
    requires m > 0 && c % m == 0 && q < c < q + m
    ensures q % m == m - (c - q)
  {
    var k := c / m;
    assert c == k * m;
    assert k != 0;
    assert (k - 1) * m == c - m;
    QuotientUnique(q, m, k - 1, q - (c - m));
  }

  /** One call: the block starts at or after the pointer, is aligned, and keeps to one boundary window. */
  lemma StartMeetsConstraints(ptr: nat, r: Request)
    requires Sound(ptr, r)
    ensures ptr <= Start(ptr, r) <= ptr + r.alignment + r.boundary
    ensures AlignedTo(Start(ptr, r), r.alignment)
    ensures 0 < r.size <= r.boundary ==> WithinBoundary(Start(ptr, r), r.size, r.boundary)
  {
    AlignMeets(ptr, r);
    var q := Align(ptr, r);
    SkipKeepsAlignment(q, r);
    if 0 < r.size <= r.boundary { SkipStaysWithin(q, r); }
  }

  // ---- when a block is granted ----

  /** As AllocMem keeps it: a block crosses no multiple of the boundary, unless it begins at one. */
  predicate BoundaryKept(p: nat, size: nat, boundary: nat) {
    boundary == 0 || p % boundary == 0 || p % boundary + size <= boundary
  }

  /** p is an address for the request at or behind the pointer. */
  predicate Meets(ptr: nat, r: Request, p: nat) {
    ptr <= p && AlignedTo(p, r.alignment) && BoundaryKept(p, r.size, r.boundary)
  }

  /** The block at p also ends in the pool of 32 pages of 4 KiB that begins at base. */
  predicate Admissible(base: nat, ptr: nat, r: Request, p: nat) {
    Meets(ptr, r, p) && p + r.size <= base + 131072
  }

  /** Between q and the next multiple c of m no block of this size stays below c. */
  lemma CrossesNext(q: nat, c: nat, m: nat, p: nat, size: nat)
    requires m > 0 && c % m == 0 && q <= p < c < q + m && q + size > c
    ensures p % m + size > m
  {
    BelowMultiple(p, c, m);
  }

  /** The least aligned address is not above any other. */
  lemma AlignIsLeast(ptr: nat, r: Request, p: nat)
    requires Sound(ptr, r) && ptr <= p && AlignedTo(p, r.alignment)
    ensures Align(ptr, r) <= p
  {
    if r.alignment > 0 {
      var k: nat :| r.alignment == Pow2(k);
      CeilIsLeastMultiple(ptr, k);
      if p < Align(ptr, r) { MultiplesApart(p, Align(ptr, r), r.alignment); }
    }
  }

  /** Two multiples of m are m apart. */
  lemma MultiplesApart(p: nat, c: nat, m: nat)
    requires m > 0 && p % m == 0 && c % m == 0 && p < c
    ensures p + m <= c
  {
    if c < p + m { BelowMultiple(p, c, m); }
  }

  /** Behind q the least address that keeps the boundary is q itself or the next multiple. */
  lemma SkipIsLeast(q: nat, r: Request)
    requires ZeroOrPow2(r.boundary) && r.boundary < WORD32 && q + r.boundary + r.size < WORD64
    ensures BoundaryKept(SkipBoundary(q, r), r.size, r.boundary)
    ensures forall p: nat :: q <= p && BoundaryKept(p, r.size, r.boundary) ==> SkipBoundary(q, r) <= p
  {
    if r.boundary > 0 {
      var m := r.boundary;
      var b: nat :| m == Pow2(b);
      CeilIsLeastMultiple(q, b);
      SmallMod(q + r.size, WORD64);
      var c := Ceil(q, m);
      if c < q + r.size {
        forall p: nat | q <= p && BoundaryKept(p, r.size, m) ensures c <= p {
          if p < c {
            CrossesNext(q, c, m, p, r.size);
            BelowMultiple(p, c, m);
          }
        }
      } else if q % m != 0 {
        BelowMultiple(q, c, m);
      }
    }
  }

  /** The block begins at the least address behind the pointer that meets both constraints. */
  lemma StartIsLeast(ptr: nat, r: Request)
    requires Sound(ptr, r)
    ensures Meets(ptr, r, Start(ptr, r)) && forall p: nat :: Meets(ptr, r, p) ==> Start(ptr, r) <= p
  {
    AlignMeets(ptr, r);
    StartMeetsConstraints(ptr, r);
    SkipIsLeast(Align(ptr, r), r);
    forall p: nat | Meets(ptr, r, p) ensures Start(ptr, r) <= p { AlignIsLeast(ptr, r, p); }
  }

  /**
   * A sound request is granted if and only if some place for it is left in the pool behind the pointer, and then at
   * the least such place.
   */
  lemma GrantedExactly(base: nat, ptr: nat, r: Request)
    requires Sound(ptr, r)
    ensures Granted(base, Start(ptr, r), r.size).Some? <==> exists p: nat :: Admissible(base, ptr, r, p)
    ensures var g := Granted(base, Start(ptr, r), r.size);
            g.Some? ==>
              Admissible(base, ptr, r, g.value) && forall p: nat :: Admissible(base, ptr, r, p) ==> g.value <= p
  {
    StartMeetsConstraints(ptr, r);
    StartIsLeast(ptr, r);
    SmallMod(Start(ptr, r) + r.size, WORD64);
    forall p: nat | Admissible(base, ptr, r, p) ensures Start(ptr, r) <= p { assert Meets(ptr, r, p); }
    if Granted(base, Start(ptr, r), r.size).Some? { assert Admissible(base, ptr, r, Start(ptr, r)); }
  }

  // ---- sequences of calls ----

  /** A block handed out, with the request it answered. */
  datatype Block = Block(start: nat, request: Request) {
    function End(): nat { start + request.size }
  }

  /** The pointer and the blocks handed out after a sequence of calls. */
  datatype Heap = Heap(ptr: nat, blocks: seq<Block>)

  function Call(base: nat, h: Heap, r: Request): Heap
    requires Arguments(r)
  {
    CallAt(base, h, r, Start(h.ptr, r))
  }

  function CallAt(base: nat, h: Heap, r: Request, start: nat): Heap {
    match Granted(base, start, r.size)
    case Some(p) => Heap((start + r.size) % WORD64, h.blocks + [Block(p, r)])
    case None => Heap(start, h.blocks)
  }

  /** Every call of the sequence is sound where it is made. */
  ghost predicate SoundCalls(base: nat, h: Heap, rs: seq<Request>)
    decreases |rs|
  {
    rs == [] || (Sound(h.ptr, rs[0]) && SoundCalls(base, Call(base, h, rs[0]), rs[1..]))
  }

  ghost function Calls(base: nat, h: Heap, rs: seq<Request>): Heap
    requires SoundCalls(base, h, rs)
    decreases |rs|
  {
    if rs == [] then h else Calls(base, Call(base, h, rs[0]), rs[1..])
  }

  predicate BlockOk(base: nat, b: Block) {
    && base <= b.start && b.End() <= base + POOL_SIZE
    && AlignedTo(b.start, b.request.alignment)
    && (0 < b.request.size <= b.request.boundary ==> WithinBoundary(b.start, b.request.size, b.request.boundary))
  }

  predicate Disjoint(a: Block, b: Block) {
    a.End() <= b.start || b.End() <= a.start
  }

  ghost predicate HeapOk(base: nat, h: Heap) {
    && base <= h.ptr
    && (forall i :: 0 <= i < |h.blocks| ==> BlockOk(base, h.blocks[i]) && h.blocks[i].End() <= h.ptr)
    && (forall i, j :: 0 <= i < j < |h.blocks| ==> h.blocks[i].End() <= h.blocks[j].start)
  }

  lemma CallKeepsHeapOk(base: nat, h: Heap, r: Request)
    requires HeapOk(base, h) && Sound(h.ptr, r)
    ensures HeapOk(base, Call(base, h, r))
  {
    StartMeetsConstraints(h.ptr, r);
    GrantKeepsHeapOk(base, h, r, Start(h.ptr, r));
  }

  lemma GrantKeepsHeapOk(base: nat, h: Heap, r: Request, start: nat)
    requires HeapOk(base, h) && h.ptr <= start && start + r.size < WORD64 && AlignedTo(start, r.alignment)
    requires 0 < r.size <= r.boundary ==> WithinBoundary(start, r.size, r.boundary)
    ensures HeapOk(base, CallAt(base, h, r, start))
  {
    SmallMod(start + r.size, WORD64);
  }

  /**
   * After any sequence of sound calls, failed ones included, every block lies in the pool, meets
   * its own alignment and boundary, and no two blocks overlap.
   */
  lemma {:induction false} AllBlocksMeetRequests(base: nat, h: Heap, rs: seq<Request>)
    requires HeapOk(base, h) && SoundCalls(base, h, rs)
    ensures var h' := Calls(base, h, rs);
            && HeapOk(base, h')
            && (forall i :: 0 <= i < |h'.blocks| ==> BlockOk(base, h'.blocks[i]))
            && (forall i, j :: 0 <= i < j < |h'.blocks| ==> Disjoint(h'.blocks[i], h'.blocks[j]))
    decreases |rs|
  {
    if rs != [] {
      CallKeepsHeapOk(base, h, rs[0]);
      AllBlocksMeetRequests(base, Call(base, h, rs[0]), rs[1..]);
    }
  }

  /** The state before call i of a sequence. */
  lemma {:induction false} CallsUpTo(base: nat, h: Heap, rs: seq<Request>, i: nat)
    requires SoundCalls(base, h, rs) && i < |rs|
    ensures SoundCalls(base, h, rs[..i]) && Sound(Calls(base, h, rs[..i]).ptr, rs[i])
    ensures SoundCalls(base, h, rs[..i + 1])
    ensures Calls(base, h, rs[..i + 1]) == Call(base, Calls(base, h, rs[..i]), rs[i])
    decreases |rs|
  {
    var h1 := Call(base, h, rs[0]);
    assert rs[..i + 1][1..] == rs[1..][..i];
    if i > 0 {
      CallsUpTo(base, h1, rs[1..], i - 1);
      assert rs[..i][1..] == rs[1..][..i - 1] && rs[..i + 1][1..] == rs[1..][..(i - 1) + 1];
    }
  }

  /**
   * In every sequence of sound calls, each call hands out a block exactly when a place for it is left; one that fails
   * has moved the pointer to the least address that meets its constraints.
   */
  lemma EveryCallAnswered(base: nat, h: Heap, rs: seq<Request>, i: nat)
    requires SoundCalls(base, h, rs) && i < |rs|
    ensures SoundCalls(base, h, rs[..i]) && SoundCalls(base, h, rs[..i + 1])
    ensures var before, after := Calls(base, h, rs[..i]), Calls(base, h, rs[..i + 1]);
            if exists p: nat :: Admissible(base, before.ptr, rs[i], p)
            then exists p: nat :: Admissible(base, before.ptr, rs[i], p) &&
                             after.blocks == before.blocks + [Block(p, rs[i])] && after.ptr == p + rs[i].size
            else after.blocks == before.blocks && Meets(before.ptr, rs[i], after.ptr) &&
                   forall p: nat :: Meets(before.ptr, rs[i], p) ==> after.ptr <= p
  {
    CallsUpTo(base, h, rs, i);
    var before := Calls(base, h, rs[..i]);
    GrantedExactly(base, before.ptr, rs[i]);
    StartMeetsConstraints(before.ptr, rs[i]);
    StartIsLeast(before.ptr, rs[i]);
    SmallMod(Start(before.ptr, rs[i]) + rs[i].size, WORD64);
  }
}
