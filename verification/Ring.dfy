/** The command and transfer rings as the driver sees them (kernel/usb/xhci/ring.cpp, ring.hpp). */
module Rings {
  import opened Wrappers
  import opened Trbs
  import Memory

  /** One 32-bit store to ring memory. */
  datatype WordWrite = WordWrite(index: nat, word: nat, value: Word)

  /** Ring memory and the producer's private registers. */
  datatype RingState = RingState(mem: seq<Trb>, base: Address, writeIndex: nat, cycleBit: bool)

  predicate RingOk(s: RingState) {
    2 <= |s.mem| && s.writeIndex < |s.mem| - 1
  }

  predicate WriteOk(n: nat, w: WordWrite) {
    w.index < n && w.word < 4
  }

  function Store(mem: seq<Trb>, w: WordWrite): (mem': seq<Trb>)
    requires WriteOk(|mem|, w)
    ensures |mem'| == |mem|
  {
    mem[w.index := WithWord(mem[w.index], w.word, w.value)]
  }

  /** The stores of CopyToLast, in program order: the word holding the cycle bit comes last. */
  function TrbWrites(index: nat, t: Trb): seq<WordWrite> {
    [WordWrite(index, 0, t.w0), WordWrite(index, 1, t.w1), WordWrite(index, 2, t.w2), WordWrite(index, 3, t.w3)]
  }

  /** Position and cycle bit of the producer after one Push on a ring of n entries. */
  function NextIndex(n: nat, index: nat): nat { if index + 2 == n then 0 else index + 1 }
  function NextCycle(n: nat, index: nat, cycle: bool): bool { if index + 2 == n then !cycle else cycle }

  /** The stores of a Push: the TRB, then the Link TRB when the TRB filled the last data entry. */
  function PushWrites(n: nat, base: Address, index: nat, cycle: bool, data: Trb): seq<WordWrite> {
    TrbWrites(index, Stamp(data, cycle)) +
    (if index + 2 == n then TrbWrites(n - 1, Stamp(LinkTrb(base), cycle)) else [])
  }

  /** The ring after a Push, as one update. */
  function Pushed(s: RingState, data: Trb): (s': RingState)
    requires RingOk(s)
    ensures RingOk(s') && |s'.mem| == |s.mem| && s'.base == s.base
  {
    var n := |s.mem|;
    var mem := s.mem[s.writeIndex := Stamp(data, s.cycleBit)];
    RingState(if s.writeIndex + 2 == n then mem[n - 1 := Stamp(LinkTrb(s.base), s.cycleBit)] else mem,
              s.base, NextIndex(n, s.writeIndex), NextCycle(n, s.writeIndex, s.cycleBit))
  }

  class Ring {
    var buf: array<Trb>
    var base: Address        // address of buf_
    var cycleBit: bool
    var writeIndex: nat
    ghost var stores: seq<WordWrite>   // every store made to ring memory, in order

    ghost predicate Valid()
      reads this
    {
      2 <= buf.Length && writeIndex < buf.Length - 1
    }

    ghost function State(): RingState
      reads this, buf
    {
      RingState(buf[..], base, writeIndex, cycleBit)
    }

    constructor ()
      ensures fresh(buf) && buf.Length == 0
    {
      buf := new Trb[0];
      base, cycleBit, writeIndex, stores := 0, false, 0, [];
    }

    /** Zeroed memory, write index 0, cycle bit 1; the base is 64-byte aligned and inside one 64 KiB window. */
    method Initialize(pool: Memory.MemoryPool, bufSize: nat) returns (err: Error)
      requires 2 <= bufSize <= 4096
      requires Memory.Sound(pool.allocPtr, Memory.Request(16 * bufSize, 64, 65536))
      modifies this, pool`allocPtr
      ensures err == Success || err == NoEnoughMemory
      ensures err == Success ==>
        Valid() && fresh(buf) && State() == RingState(seq(bufSize, _ => ZERO), base, 0, true) && stores == [] &&
        base % 64 == 0 && base % 65536 + 16 * bufSize <= 65536
    {
      hide Memory.Start;
      cycleBit := true;
      writeIndex := 0;
      stores := [];
      ghost var r := Memory.Request(16 * bufSize, 64, 65536);
      Memory.StartMeetsConstraints(pool.allocPtr, r);
      var p := pool.AllocMem(16 * bufSize, 64, 65536);
      if p == None {
        return NoEnoughMemory;
      }
      base := p.value;
      buf := new Trb[bufSize](_ => ZERO);
      assert buf[..] == seq(bufSize, _ => ZERO);
      return Success;
    }

    method WriteWord(i: nat, k: nat, v: Word)
      requires i < buf.Length && k < 4
      modifies this`stores, buf
      ensures buf[..] == Store(old(buf[..]), WordWrite(i, k, v))
      ensures stores == old(stores) + [WordWrite(i, k, v)]
    {
      buf[i] := WithWord(buf[i], k, v);
      stores := stores + [WordWrite(i, k, v)];
    }

    method CopyToLast(data: Trb)
      requires writeIndex < buf.Length
      modifies this`stores, buf
      ensures stores == old(stores) + TrbWrites(writeIndex, Stamp(data, cycleBit))
      ensures buf[..] == old(buf[..])[writeIndex := Stamp(data, cycleBit)]
    {
      ghost var t := Stamp(data, cycleBit);
      for i := 0 to 3
        invariant buf.Length == old(buf.Length)
        invariant stores == old(stores) + TrbWrites(writeIndex, t)[..i]
        invariant forall j :: 0 <= j < buf.Length && j != writeIndex ==> buf[j] == old(buf[j])
        invariant forall k :: 0 <= k < i ==> WordOf(buf[writeIndex], k) == WordOf(t, k)
      {
        WriteWord(writeIndex, i, WordOf(data, i));
      }
      assert TrbWrites(writeIndex, t)[..3] + [WordWrite(writeIndex, 3, t.w3)] == TrbWrites(writeIndex, t);
      assert WordOf(buf[writeIndex], 0) == t.w0 && WordOf(buf[writeIndex], 1) == t.w1 &&
        WordOf(buf[writeIndex], 2) == t.w2;
      WriteWord(writeIndex, 3, StampWord(data.w3, cycleBit));
      assert buf[..] == old(buf[..])[writeIndex := t];
    }

    /** Appends a TRB; the result is the index of the entry it occupies. */
    method Push(data: Trb) returns (i: nat)
      requires Valid()
      modifies this`stores, this`writeIndex, this`cycleBit, buf
      ensures Valid() && i == old(writeIndex)
      ensures State() == Pushed(old(State()), data)
      ensures stores == old(stores) + PushWrites(buf.Length, base, old(writeIndex), old(cycleBit), data)
    {
      i := writeIndex;
      CopyToLast(data);
      writeIndex := writeIndex + 1;
      if writeIndex == buf.Length - 1 {
        CopyToLast(LinkTrb(base));
        writeIndex := 0;
        cycleBit := !cycleBit;
      }
    }
  }
}
