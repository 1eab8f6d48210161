/**
 * Loading the kernel's ELF segments (MikanLoaderPkg/Main.c); the declarations of elf.hpp are not part of this model.
 */
module ElfLoader {
  import opened Trbs

  const PT_LOAD: nat := 1
  const MAX_UINT64: Address := 0xffff_ffff_ffff_ffff
  const PAGE: nat := 0x1000

  datatype Phdr = Phdr(kind: nat, offset: Address, vaddr: Address, filesz: Address, memsz: Address)

  predicate IsLoad(p: Phdr) { p.kind == PT_LOAD }

  predicate Inside(a: int, start: int, len: int) { start <= a < start + len }

  predicate InSegment(p: Phdr, a: Address) { IsLoad(p) && Inside(a, p.vaddr, p.memsz) }

  // ---- what the caller provides ----

  /** The file fits its buffer at `file`; a loadable segment does not wrap around and holds its file part. */
  predicate SegmentOk(p: Phdr, file: Address, size: nat) {
    IsLoad(p) ==> p.filesz <= p.memsz && p.vaddr + p.memsz < B64 && p.offset + p.filesz <= size
  }

  /** No byte of the segment lies in the file buffer. */
  predicate OutsideFile(p: Phdr, file: Address, size: nat) {
    forall a: Address :: Inside(a, file, size) ==> !InSegment(p, a)
  }

  predicate Apart(p: Phdr, q: Phdr) {
    forall a: Address :: InSegment(p, a) ==> !InSegment(q, a)
  }

  ghost predicate TableOk(ph: seq<Phdr>, file: Address, size: nat) {
    && file + size < B64
    && (forall i :: 0 <= i < |ph| ==> SegmentOk(ph[i], file, size) && OutsideFile(ph[i], file, size))
    && (forall i, j :: 0 <= i < j < |ph| ==> Apart(ph[i], ph[j]))
  }

  // ---- the range and its pages ----

  /** CalcLoadAddressRange: the smallest range around every loadable segment. */
  method CalcLoadAddressRange(ph: seq<Phdr>) returns (first: Address, last: Address)
    requires forall i :: 0 <= i < |ph| && IsLoad(ph[i]) ==> ph[i].vaddr + ph[i].memsz < B64
    ensures forall i :: 0 <= i < |ph| && IsLoad(ph[i]) ==> first <= ph[i].vaddr && ph[i].vaddr + ph[i].memsz <= last
    ensures if exists i :: 0 <= i < |ph| && IsLoad(ph[i]) then
              && (exists i :: 0 <= i < |ph| && IsLoad(ph[i]) && ph[i].vaddr == first)
              && (exists i :: 0 <= i < |ph| && IsLoad(ph[i]) && ph[i].vaddr + ph[i].memsz == last)
            else first == MAX_UINT64 && last == 0
  {
    first, last := MAX_UINT64, 0;
    for i := 0 to |ph|
      invariant forall j :: 0 <= j < i && IsLoad(ph[j]) ==> first <= ph[j].vaddr && ph[j].vaddr + ph[j].memsz <= last
      invariant (forall j :: 0 <= j < i ==> !IsLoad(ph[j])) ==> first == MAX_UINT64 && last == 0
      invariant (exists j :: 0 <= j < i && IsLoad(ph[j])) ==>
        && (exists j :: 0 <= j < i && IsLoad(ph[j]) && ph[j].vaddr == first)
        && (exists j :: 0 <= j < i && IsLoad(ph[j]) && ph[j].vaddr + ph[j].memsz == last)
    {
      if !IsLoad(ph[i]) {
        continue;
      }
      if ph[i].vaddr < first {
        first := ph[i].vaddr;
      }
      if ph[i].vaddr + ph[i].memsz > last {
        last := ph[i].vaddr + ph[i].memsz;
      }
      assert IsLoad(ph[i]);
    }
  }

  /** The page count, in 64-bit arithmetic. */
  function NumPages(first: Address, last: Address): nat
    requires first <= last
  {
    (last - first + 0xfff) % B64 / PAGE
  }

  /** The pages allocated at `first` reach `last` exactly when rounding up does not wrap around. */
  lemma PagesReach(first: Address, last: Address)
    requires first < last
    ensures last <= first + PAGE * NumPages(first, last) <==> last - first + 0xfff < B64
    ensures last - first + 0xfff < B64 ==> PAGE * NumPages(first, last) < last - first + PAGE
  {
    var n := last - first + 0xfff;
    if n >= B64 {
      assert n % B64 == n - B64 && n - B64 < PAGE;
    }
  }

  // ---- memory ----

  /** All of the address space; CopyMem and SetMem are the UEFI library functions. */
  class Memory {
    var bytes: seq<Byte>

    ghost predicate Valid()
      reads this
    {
      |bytes| == B64
    }

    constructor (bytes: seq<Byte>)
      requires |bytes| == B64
      ensures Valid() && this.bytes == bytes
    {
      this.bytes := bytes;
    }

    method CopyMem(dst: Address, src: Address, n: nat)
      requires Valid() && dst + n <= B64 && src + n <= B64
      modifies this
      ensures Valid() && bytes == old(bytes)[..dst] + old(bytes)[src..src + n] + old(bytes)[dst + n..]
    {
      bytes := bytes[..dst] + bytes[src..src + n] + bytes[dst + n..];
    }

    method SetMem(dst: Address, n: nat, v: Byte)
      requires Valid() && dst + n <= B64
      modifies this
      ensures Valid() && bytes == old(bytes)[..dst] + seq(n, _ => v) + old(bytes)[dst + n..]
    {
      bytes := bytes[..dst] + seq(n, _ => v) + bytes[dst + n..];
    }
  }

  // ---- the segments ----

  /** What a loaded segment holds at a: its byte of the file, or zero behind the file part. */
  function SegmentByte(p: Phdr, file: Address, size: nat, before: seq<Byte>, a: Address): Byte
    requires IsLoad(p) && InSegment(p, a) && SegmentOk(p, file, size) && file + size < B64 && |before| == B64
  {
    if a < p.vaddr + p.filesz then before[file + p.offset + (a - p.vaddr)] else 0
  }

  ghost predicate Loaded(ph: seq<Phdr>, n: nat, file: Address, size: nat, before: seq<Byte>, after: seq<Byte>)
    requires TableOk(ph, file, size) && n <= |ph|
  {
    && |before| == B64 && |after| == B64
    && (forall i, a: Address :: 0 <= i < n && InSegment(ph[i], a) ==>
      after[a] == SegmentByte(ph[i], file, size, before, a))
    && (forall a: Address :: (forall i :: 0 <= i < n ==> !InSegment(ph[i], a)) ==> after[a] == before[a])
  }

  /** One turn of the loop of CopyLoadSegments. */
  method LoadSegment(m: Memory, p: Phdr, file: Address, size: nat)
    requires m.Valid() && SegmentOk(p, file, size) && OutsideFile(p, file, size) && IsLoad(p) && file + size < B64
    modifies m
    ensures m.Valid()
    ensures forall a: Address :: m.bytes[a] == if InSegment(p, a) then SegmentByte(p, file, size, old(m.bytes), a)
            else old(m.bytes)[a]
  {
    m.CopyMem(p.vaddr, file + p.offset, p.filesz);
    var remain := p.memsz - p.filesz;
    m.SetMem(p.vaddr + p.filesz, remain, 0);
  }

  /**
   * Afterwards every byte of a loadable segment is its byte of the file as it was, or zero, and no other byte of
   * memory has changed.
   */
  method CopyLoadSegments(m: Memory, ph: seq<Phdr>, file: Address, size: nat)
    requires m.Valid() && TableOk(ph, file, size)
    modifies m
    ensures m.Valid() && Loaded(ph, |ph|, file, size, old(m.bytes), m.bytes)
  {
    ghost var before := m.bytes;
    for i := 0 to |ph|
      invariant m.Valid() && Loaded(ph, i, file, size, before, m.bytes)
    {
      if IsLoad(ph[i]) {
        ghost var mid := m.bytes;
        LoadSegment(m, ph[i], file, size);
        LoadedMore(ph, i, file, size, before, mid, m.bytes);
      }
    }
  }

  /** The file part of a later segment is still the file's: no segment touches the buffer. */
  lemma LoadedMore(ph: seq<Phdr>, i: nat, file: Address, size: nat, before: seq<Byte>, mid: seq<Byte>, after: seq<Byte>)
    requires TableOk(ph, file, size) && i < |ph| && IsLoad(ph[i]) && Loaded(ph, i, file, size, before, mid) &&
             |after| == B64
    requires forall a: Address :: after[a] == if InSegment(ph[i], a) then SegmentByte(ph[i], file, size, mid, a)
             else mid[a]
    ensures Loaded(ph, i + 1, file, size, before, after)
  {
    forall a: Address | InSegment(ph[i], a) ensures after[a] == SegmentByte(ph[i], file, size, before, a) {
      if a < ph[i].vaddr + ph[i].filesz {
        var source := file + ph[i].offset + (a - ph[i].vaddr);
        assert forall j :: 0 <= j < i ==> OutsideFile(ph[j], file, size);
        assert mid[source] == before[source];
      }
    }
    forall j, a: Address | 0 <= j < i && InSegment(ph[j], a)
      ensures after[a] == SegmentByte(ph[j], file, size, before, a)
    {
      assert Apart(ph[j], ph[i]);
    }
  }

  /** A segment whose program header has type 1 gets its bytes of the file, and zeros up to its size in memory. */
  lemma SegmentIsLoaded(ph: seq<Phdr>, file: Address, size: nat, before: seq<Byte>, after: seq<Byte>, i: nat, k: nat)
    requires TableOk(ph, file, size) && Loaded(ph, |ph|, file, size, before, after)
    requires i < |ph| && ph[i].kind == 1 && k < ph[i].memsz
    ensures ph[i].vaddr + k < |after| && (k < ph[i].filesz ==> file + ph[i].offset + k < |before|)
    ensures after[ph[i].vaddr + k] == if k < ph[i].filesz then before[file + ph[i].offset + k] else 0
  {
    assert SegmentOk(ph[i], file, size) && InSegment(ph[i], ph[i].vaddr + k);
  }

  /** What lies in no such segment stays as it was. */
  lemma OtherBytesStay(ph: seq<Phdr>, file: Address, size: nat, before: seq<Byte>, after: seq<Byte>, a: Address)
    requires TableOk(ph, file, size) && Loaded(ph, |ph|, file, size, before, after)
    requires forall i :: 0 <= i < |ph| && ph[i].kind == 1 ==> a < ph[i].vaddr || ph[i].vaddr + ph[i].memsz <= a
    ensures a < |after| == |before| && after[a] == before[a]
  {
    assert forall i :: 0 <= i < |ph| ==> !InSegment(ph[i], a);
  }

  /** Every byte the loader writes lies in the pages it allocated, unless rounding up wraps around. */
  lemma WritesInPages(ph: seq<Phdr>, file: Address, size: nat, first: Address, last: Address, i: nat, a: Address)
    requires TableOk(ph, file, size) && i < |ph| && InSegment(ph[i], a)
    requires forall j :: 0 <= j < |ph| && IsLoad(ph[j]) ==> first <= ph[j].vaddr && ph[j].vaddr + ph[j].memsz <= last
    requires last - first + 0xfff < B64
    ensures Inside(a, first, PAGE * NumPages(first, last))
  {
    assert SegmentOk(ph[i], file, size);
    PagesReach(first, last);
  }
}
