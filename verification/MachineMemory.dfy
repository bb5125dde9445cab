/**
 The memory operations of kernel/vm.c and kernel/kalloc.c on one machine: the physical frames,
 the free list, and the ghost account of who owns each managed frame.
 */
module MachineMemory {
  import opened Numbers
  import opened Vm

  // ---------- how a call may change ownership and views ----------

  /** Only free frames changed hands, and they became page tables of `d`. */
  ghost predicate GrewTables(o: Owners, o': Owners, d: nat) {
    && o.Keys == o'.Keys
    && forall f :: f in o ==> o'[f] == o[f] || (o[f].Free? && o'[f].Table? && o'[f].d == d)
  }

  lemma GrewMore(o: Owners, o': Owners, o'': Owners, d: nat)
    requires GrewTables(o, o', d) && GrewTables(o', o'', d)
    ensures GrewTables(o, o'', d)
  {
  }

  /** Page numbers `lo..hi` of `d` map consecutive frames from `pf` on; nothing else changed. */
  ghost predicate Mapped(mem: Mem, mem': Mem, o: Owners, d: nat, lo: int, hi: int, pf: int, flags: nat) {
    forall e, i, j {:trigger Entry(mem', e, i, j)} ::
      IsDir(o, e) && 0 <= i < ENTRIES && 0 <= j < ENTRIES ==>
        if e == d && lo <= i * ENTRIES + j < hi
        then IsPte(Entry(mem', e, i, j), pf + (i * ENTRIES + j - lo), flags)
        else Entry(mem', e, i, j) == Entry(mem, e, i, j)
  }

  ghost predicate IsPte(e: Pte, f: int, flags: nat) {
    e.present && e.frame == f && e.flags == flags
  }

  /** No page with number `lo..hi` of `d` is mapped. */
  ghost predicate NonePresent(mem: Mem, d: nat, lo: int, hi: int) {
    forall i, j {:trigger Entry(mem, d, i, j)} ::
      0 <= i < ENTRIES && 0 <= j < ENTRIES && lo <= i * ENTRIES + j < hi ==> !Entry(mem, d, i, j).present
  }

  /** User pages and held frames keep their contents. */
  ghost predicate DataSame(mem: Mem, mem': Mem, o: Owners) {
    forall f :: f in o && (o[f].User? || o[f].Held?) ==> f in mem && f in mem' && mem'[f] == mem[f]
  }

  // ---------- what page tables cost ----------

  /** The directory slots of `d` that have a page table. */
  ghost function Slots(mem: Mem, d: nat): (r: set<int>) {
    set i | 0 <= i < ENTRIES && Word(mem, d, i).present
  }

  ghost predicate InSlots(lo: int, hi: int, i: int) {
    lo / ENTRIES <= i <= (hi - 1) / ENTRIES
  }

  /** The directory slots that the pages `lo..hi` fall into. */
  ghost function SlotsOf(lo: int, hi: int): (r: set<int>) {
    if lo < hi then set i {:trigger InSlots(lo, hi, i)} | 0 <= i < ENTRIES && InSlots(lo, hi, i) else {}
  }

  /** Page tables for `slots` were paid for with free frames, and `n` more frames were taken. */
  ghost predicate Paid(mem: Mem, free: seq<nat>, mem': Mem, free': seq<nat>, d: nat, slots: set<int>, n: int) {
    && Slots(mem', d) == Slots(mem, d) + slots
    && |free| + |Slots(mem, d)| == |free'| + |Slots(mem', d)| + n
  }

  lemma PaidMore(m0: Mem, f0: seq<nat>, m1: Mem, f1: seq<nat>, m2: Mem, f2: seq<nat>, d: nat,
                 s1: set<int>, n1: int, s2: set<int>, n2: int)
    requires Paid(m0, f0, m1, f1, d, s1, n1) && Paid(m1, f1, m2, f2, d, s2, n2)
    ensures Paid(m0, f0, m2, f2, d, s1 + s2, n1 + n2)
  {
  }

  lemma PaidNothing(mem: Mem, free: seq<nat>, d: nat)
    ensures Paid(mem, free, mem, free, d, {}, 0)
  {
  }

  /** What was paid, in frames. */
  lemma PaidFrames(mem: Mem, free: seq<nat>, mem': Mem, free': seq<nat>, d: nat, slots: set<int>, n: int)
    requires Paid(mem, free, mem', free', d, slots, n)
    ensures |free| == |free'| + |slots - Slots(mem, d)| + n
  {
    assert Slots(mem', d) == Slots(mem, d) + (slots - Slots(mem, d));
  }

  /** With nothing left and a slot still missing, there was less than all the slots cost. */
  lemma PaidShort(mem: Mem, free: seq<nat>, mem': Mem, free': seq<nat>, d: nat, slots: set<int>, n: int,
                  all: set<int>, i: int)
    requires Paid(mem, free, mem', free', d, slots, n) && free' == []
    requires slots <= all && i in all && i !in Slots(mem', d)
    ensures |free| < |all - Slots(mem, d)| + n
  {
    PaidFrames(mem, free, mem', free', d, slots, n);
    SubsetSize(slots - Slots(mem, d) + {i}, all - Slots(mem, d));
  }

  lemma SlotsOfStep(lo: int, k: int)
    requires 0 <= lo <= k < ENTRIES * ENTRIES
    ensures SlotsOf(lo, k + 1) == SlotsOf(lo, k) + {k / ENTRIES} && SlotsOf(lo, lo) == {}
  {
  }

  lemma FreshData(mem0: Mem, mem1: Mem, mem2: Mem, o: Owners, f: nat)
    requires Is(o, f, Held) && mem1 == mem0[f := ZeroPage()] && DataSame(mem1, mem2, o)
    ensures DataSame(mem0, mem2, o[f := Free])
  {
  }

  lemma FreshOwners(o: Owners, o2: Owners, mem1: Mem, mem2: Mem, d: nat, va: nat, f: nat)
    requires Is(o, f, Held) && f in mem1 && mem1[f] == ZeroPage() && DataSame(mem1, mem2, o) && va < U32
    requires GrewTables(GivenTo(o, d, va, f, true), o2, d)
    ensures AllocOwners(o[f := Free], o2, mem2, d, PageOf(va), PageOf(va) + 1)
    ensures forall e :: IsDir(o, e) <==> IsDir(o2, e)
  {
    PageDigits(va);
  }

  lemma AllocDirs(o: Owners, o': Owners, mem': Mem, d: nat, lo: int, hi: int)
    requires AllocOwners(o, o', mem', d, lo, hi)
    ensures forall e :: IsDir(o, e) <==> IsDir(o', e)
  {
  }

  /** What a round of allocuvm adds to the rounds before. */
  lemma RoundAllocated(mem0: Mem, free0: seq<nat>, o0: Owners, mem1: Mem, free1: seq<nat>, o1: Owners,
                       mem2: Mem, free2: seq<nat>, o2: Owners, d: nat, lo: int, v: int, v': int,
                       a: nat, f: nat)
    requires AllocSoFar(mem0, free0, o0, mem1, free1, o1, d, lo, v) && a == v * PGSIZE && a < U32 && 0 <= lo <= v
    requires v' == v + 1
    requires OneEntry(mem1, mem2, o2, d, Pdx(a), Ptx(a), Pte(true, f, PTE_W + PTE_U)) && DataSame(mem1, mem2, o1)
    requires AllocOwners(o1, o2, mem2, d, PageOf(a), PageOf(a) + 1) && Paid(mem1, free1, mem2, free2, d, {Pdx(a)}, 1)
    ensures AllocSoFar(mem0, free0, o0, mem2, free2, o2, d, lo, v')
  {
    PageDigits(a);
    AllocDirs(o1, o2, mem2, d, v, v + 1);
    GrownStep(mem0, mem1, mem2, o1, o2, d, lo, v, Pdx(a), Ptx(a), Pte(true, f, PTE_W + PTE_U));
    AllocOwnersStep(o0, o1, o2, mem1, mem2, d, lo, v);
    SlotOfPage(a, v);
    PaidPage(mem0, free0, mem1, free1, mem2, free2, d, lo, v, Pdx(a));
  }

  lemma SizesPages(oldsz: nat, newsz: nat, lo: int, hi: int)
    requires oldsz <= newsz < SHAREDBASE && lo == PagesFor(oldsz) && hi == PagesFor(newsz)
    ensures 0 <= lo <= hi <= SHAREDPDX * ENTRIES && RoundUp(oldsz) == lo * PGSIZE
  {
  }

  lemma BelowEnd(newsz: nat, a: nat, v: int, hi: int)
    requires a == v * PGSIZE && a < newsz && hi == PagesFor(newsz)
    ensures v < hi
  {
  }

  /** A finished allocuvm: there was at least what the pages cost. */
  lemma AllocPaid(m0: Mem, f0: seq<nat>, m1: Mem, f1: seq<nat>, d: nat, lo: int, hi: int)
    requires Paid(m0, f0, m1, f1, d, SlotsOf(lo, hi), hi - lo)
    ensures |f0| >= PageCost(m0, d, lo, hi)
  {
    PaidFrames(m0, f0, m1, f1, d, SlotsOf(lo, hi), hi - lo);
  }

  lemma AllocEnd(newsz: nat, a: nat, v: int)
    requires a == v * PGSIZE && a >= newsz && v <= PagesFor(newsz)
    ensures v == PagesFor(newsz)
  {
  }

  /** The frames that mapping pages `lo..hi` afresh takes: one each, and the page tables that are missing. */
  ghost function PageCost(mem: Mem, d: nat, lo: int, hi: int): (n: int) {
    hi - lo + |SlotsOf(lo, hi) - Slots(mem, d)|
  }

  ghost predicate AllocSoFar(mem0: Mem, free0: seq<nat>, o0: Owners, mem: Mem, free: seq<nat>, o: Owners, d: nat,
                             lo: int, v: int) {
    && Grown(mem0, mem, o, d, lo, v) && AllocOwners(o0, o, mem, d, lo, v)
    && Paid(mem0, free0, mem, free, d, SlotsOf(lo, v), v - lo)
  }

  lemma PaidPage(m0: Mem, f0: seq<nat>, m1: Mem, f1: seq<nat>, m2: Mem, f2: seq<nat>, d: nat, lo: int, k: int, i: int)
    requires Paid(m0, f0, m1, f1, d, SlotsOf(lo, k), k - lo) && Paid(m1, f1, m2, f2, d, {i}, 1)
    requires i == k / ENTRIES && 0 <= lo <= k < ENTRIES * ENTRIES
    ensures Paid(m0, f0, m2, f2, d, SlotsOf(lo, k + 1), k + 1 - lo)
  {
    SlotsOfStep(lo, k);
    PaidMore(m0, f0, m1, f1, m2, f2, d, SlotsOf(lo, k), k - lo, {i}, 1);
  }

  /** A round of allocuvm that found no memory changed no mapping, and has at most a frame in hand. */
  ghost predicate Refused(mem1: Mem, o1: Owners, mem: Mem, o: Owners, x: AllocResult) {
    && SameView(mem1, mem, o) && (forall e :: IsDir(o1, e) <==> IsDir(o, e))
    && if x.NoTable? then Is(o1, x.f, Free) && o == o1[x.f := Held] else o == o1
  }

  lemma RefusedIs(mem1: Mem, o1: Owners, mem: Mem, o: Owners, x: AllocResult)
    requires x.NoFrame? ==> mem == mem1 && o == o1
    requires x.NoTable? ==> SameView(mem1, mem, o) && Is(o1, x.f, Free) && o == o1[x.f := Held]
    requires !x.Allocated?
    ensures Refused(mem1, o1, mem, o, x)
  {
  }

  /** A page that finds no memory, for itself or for its page table: there was less than the pages cost. */
  lemma AllocShort(m0: Mem, f0: seq<nat>, m1: Mem, f1: seq<nat>, d: nat, lo: int, v: int, hi: int, i: int)
    requires Paid(m0, f0, m1, f1, d, SlotsOf(lo, v), v - lo) && 0 <= lo <= v < hi <= ENTRIES * ENTRIES
    requires i == v / ENTRIES && OutOfMemory(m1, f1, d, i)
    ensures |f0| < PageCost(m0, d, lo, hi)
  {
    SlotsOfMore(lo, v, hi);
    PaidFrames(m0, f0, m1, f1, d, SlotsOf(lo, v), v - lo);
    var more, all := SlotsOf(lo, v) - Slots(m0, d), SlotsOf(lo, hi) - Slots(m0, d);
    SubsetSize(more, all);
    if f1 != [] {
      SubsetSize(more + {i}, all);
    }
  }

  /** No frame for a page, or just one and none for the page table it needs. */
  ghost predicate OutOfMemory(mem: Mem, free: seq<nat>, d: nat, i: int) {
    free == [] || (|free| == 1 && i !in Slots(mem, d))
  }

  lemma PaidRound(m0: Mem, f0: seq<nat>, m1: Mem, f1: seq<nat>, m2: Mem, f2: seq<nat>, d: nat, lo: int, k: int, i: int)
    requires Paid(m0, f0, m1, f1, d, SlotsOf(lo, k), 0) && Paid(m1, f1, m2, f2, d, {i}, 0)
    requires i == k / ENTRIES && 0 <= lo <= k < ENTRIES * ENTRIES
    ensures Paid(m0, f0, m2, f2, d, SlotsOf(lo, k + 1), 0)
  {
    SlotsOfStep(lo, k);
    PaidMore(m0, f0, m1, f1, m2, f2, d, SlotsOf(lo, k), 0, {i}, 0);
  }

  lemma SlotOfPage(a: nat, v: int)
    requires a == v * PGSIZE && 0 <= v < ENTRIES * ENTRIES
    ensures Pdx(a) == v / ENTRIES
  {
  }

  lemma SlotsOfMore(lo: int, k: int, hi: int)
    requires 0 <= lo <= k < hi <= ENTRIES * ENTRIES
    ensures SlotsOf(lo, k) <= SlotsOf(lo, hi) && k / ENTRIES in SlotsOf(lo, hi)
  {
  }

  /** Hanging in a table fills one slot. */
  lemma NewSlot(mem: Mem, d: nat, i: nat, t: nat)
    requires d in mem && i < ENTRIES && t != d && !Word(mem, d, i).present
    ensures Slots(WithTable(mem, d, i, t), d) == Slots(mem, d) + {i} && i !in Slots(mem, d)
  {
    var mem' := WithTable(mem, d, i, t);
    forall k | 0 <= k < ENTRIES ensures Word(mem', d, k).present <==> Word(mem, d, k).present || k == i {
    }
  }

  lemma SlotThere(mem: Mem, free: seq<nat>, d: nat, i: nat)
    requires i < ENTRIES && Word(mem, d, i).present
    ensures Paid(mem, free, mem, free, d, {i}, 0)
  {
    assert Slots(mem, d) == Slots(mem, d) + {i};
  }

  lemma SameSlots(mem: Mem, mem': Mem, d: nat)
    requires d in mem && d in mem' && mem'[d] == mem[d]
    ensures Slots(mem', d) == Slots(mem, d)
  {
    forall k | 0 <= k < ENTRIES ensures Word(mem', d, k) == Word(mem, d, k) {
    }
  }

  datatype MapResult = Entered | NoMemory | Remap

  class Machine {
    var mem: Mem
    var free: seq<nat>
    ghost var owner: Owners

    ghost predicate Valid()
      reads this
    {
      Inv(mem, free, owner) && 0 !in owner
    }

    /** Before kinit: all managed frames are in the kernel's hand. */
    constructor (frames: set<nat>)
      requires 0 !in frames
      ensures Valid() && free == [] && owner.Keys == frames && forall f :: f in frames ==> Is(owner, f, Held)
    {
      mem, free, owner := map f | f in frames :: ZeroPage(), [], map f | f in frames :: Held;
    }

    /** A machine found with memory `mem`, free list `free` and an account that is in order. */
    constructor Found(mem: Mem, free: seq<nat>, ghost owner: Owners)
      requires Inv(mem, free, owner) && 0 !in owner
      ensures Valid() && this.mem == mem && this.free == free && this.owner == owner
    {
      this.mem, this.free, this.owner := mem, free, owner;
    }

    /** freerange frees the whole pages between two addresses, and only those. */
    method Freerange(vstart: nat, vend: nat)
      requires Valid() && forall f: nat :: vstart <= f * PGSIZE && (f + 1) * PGSIZE <= vend ==> Is(owner, f, Held)
      modifies this
      ensures Valid() && owner.Keys == old(owner).Keys && SameView(old(mem), mem, owner)
      ensures forall f :: f in owner ==>
                owner[f] == if vstart <= f * PGSIZE && (f + 1) * PGSIZE <= vend then Free else old(owner)[f]
    {
      var p := RoundUp(vstart) / PGSIZE;
      while (p + 1) * PGSIZE <= vend
        invariant Valid() && owner.Keys == old(owner).Keys && SameView(old(mem), mem, owner)
                  && RoundUp(vstart) <= p * PGSIZE
        invariant forall f :: f in owner ==>
                    owner[f] == if vstart <= f * PGSIZE && f < p && (f + 1) * PGSIZE <= vend then Free
                                else old(owner)[f]
        decreases vend - p * PGSIZE
      {
        assert Is(old(owner), p, Held);
        Kfree(p);
        p := p + 1;
      }
    }

    /** kalloc takes the first frame of the free list. */
    method Kalloc() returns (f: nat, ok: bool)
      requires Valid()
      modifies this`free, this`owner
      ensures Valid()
      ensures ok <==> old(free) != []
      ensures ok ==> f == old(free)[0] && free == old(free)[1..]
      ensures ok ==> Is(old(owner), f, Free) && owner == old(owner)[f := Held]
      ensures !ok ==> free == old(free) && owner == old(owner)
    {
      if free == [] {
        return 0, false;
      }
      f := free[0];
      assert f in free;
      Reowned(mem, owner, f, Held);
      KallocFree(free, owner);
      free := free[1..];
      owner := owner[f := Held];
      return f, true;
    }

    /** kfree fills the page with junk and pushes it on the free list. */
    method Kfree(f: nat)
      requires Valid() && Is(owner, f, Held)
      modifies this
      ensures Valid()
      ensures free == [f] + old(free) && owner == old(owner)[f := Free] && mem == old(mem)[f := JunkPage()]
      ensures SameView(old(mem), mem, owner)
    {
      ScratchWrite(mem, owner, f, JunkPage());
      Reowned(mem[f := JunkPage()], owner, f, Free);
      KfreeFree(free, owner, f);
      mem := mem[f := JunkPage()];
      free := [f] + free;
      owner := owner[f := Free];
    }

    /** walkpgdir: the frame of the page table for `va`, made on demand if `alloc`. */
    method Walk(d: nat, va: nat, alloc: bool) returns (t: nat, ok: bool)
      requires Valid() && IsDir(owner, d) && va < U32
      modifies this
      ensures Valid()
      ensures GrewTables(old(owner), owner, d) && IsDir(owner, d)
      ensures SameView(old(mem), mem, owner)
      ensures ok ==> Word(mem, d, Pdx(va)).present && Word(mem, d, Pdx(va)).frame == t
      ensures !ok ==> !Word(mem, d, Pdx(va)).present && (alloc ==> free == [])
      ensures !ok || !alloc ==> mem == old(mem) && owner == old(owner) && free == old(free)
      ensures ok ==> Paid(old(mem), old(free), mem, free, d, {Pdx(va)}, 0)
      ensures DataSame(old(mem), mem, old(owner))
    {
      PageDigits(va);
      var pde := mem[d][Pdx(va)];
      if pde.present {
        SlotThere(mem, free, d, Pdx(va));
        return pde.frame, true;
      }
      if !alloc {
        return 0, false;
      }
      t, ok := NewPageTable(d, va);
    }

    /** The part of walkpgdir that makes a page table. */
    method NewPageTable(d: nat, va: nat) returns (t: nat, ok: bool)
      requires Valid() && IsDir(owner, d) && va < U32 && !Word(mem, d, Pdx(va)).present
      modifies this
      ensures Valid() && GrewTables(old(owner), owner, d) && IsDir(owner, d) && SameView(old(mem), mem, owner)
      ensures ok ==> Word(mem, d, Pdx(va)).present && Word(mem, d, Pdx(va)).frame == t
      ensures ok ==> Paid(old(mem), old(free), mem, free, d, {Pdx(va)}, 0)
      ensures !ok ==> free == old(free) == [] && mem == old(mem) && owner == old(owner)
      ensures DataSame(old(mem), mem, old(owner))
    {
      PageDigits(va);
      t, ok := Kalloc();
      if ok {
        NewSlot(mem, d, Pdx(va), t);
        NewTable(mem, owner, d, Pdx(va), t);
        TableFree(free, owner, t, Table(d, Pdx(va)));
        mem := mem[t := ZeroPage()];
        mem := mem[d := mem[d][Pdx(va) := Pte(true, t, PTE_W + PTE_U)]];
        owner := owner[t := Table(d, Pdx(va))];
      }
    }

    /**
     One round of mappages: enter `frame` at page `va`.  With `own`, the frame is in the kernel's
     hand and becomes that user page's frame; without, the page lies at or above SHAREDBASE.
     */
    method MapPage(d: nat, va: nat, frame: nat, flags: nat, ghost own: bool) returns (r: MapResult)
      requires Valid() && IsDir(owner, d) && va < U32
      requires if own then va < SHAREDBASE && Is(owner, frame, Held) else va >= SHAREDBASE
      modifies this
      ensures Valid() && IsDir(owner, d)
      ensures r.Remap? <==> Entry(old(mem), d, Pdx(va), Ptx(va)).present
      ensures r.NoMemory? ==> free == old(free) == [] && owner == old(owner) && mem == old(mem)
      ensures r.NoMemory? ==> Pdx(va) !in Slots(mem, d)
      ensures !r.NoMemory? ==> Paid(old(mem), old(free), mem, free, d, {Pdx(va)}, 0)
      ensures !r.Entered? ==> SameView(old(mem), mem, owner) && GrewTables(old(owner), owner, d)
      ensures r.Entered? ==> OneEntry(old(mem), mem, owner, d, Pdx(va), Ptx(va), Pte(true, frame, flags))
      ensures r.Entered? ==> GrewTables(GivenTo(old(owner), d, va, frame, own), owner, d)
      ensures DataSame(old(mem), mem, old(owner))
    {
      PageDigits(va);
      var t, ok := Walk(d, va, true);
      if !ok {
        return NoMemory;
      }
      assert Entry(mem, d, Pdx(va), Ptx(va)) == Entry(old(mem), d, Pdx(va), Ptx(va));
      if mem[t][Ptx(va)].present {
        return Remap;
      }
      ghost var mem1, owner1 := mem, owner;
      StorePte(d, va, t, frame, flags, own);
      OneEntryAfter(old(mem), mem1, mem, owner1, owner, d, Pdx(va), Ptx(va), Pte(true, frame, flags));
      GivenAfter(old(owner), owner1, owner, d, va, frame, own);
      return Entered;
    }

    /** The store of mappages into an entry found absent. */
    method StorePte(d: nat, va: nat, t: nat, frame: nat, flags: nat, ghost own: bool)
      requires Valid() && IsDir(owner, d) && va < U32
      requires Word(mem, d, Pdx(va)).present && Word(mem, d, Pdx(va)).frame == t
      requires !Entry(mem, d, Pdx(va), Ptx(va)).present
      requires if own then va < SHAREDBASE && Is(owner, frame, Held) else va >= SHAREDBASE
      modifies this`mem, this`owner
      ensures Valid() && owner == GivenTo(old(owner), d, va, frame, own)
      ensures OneEntry(old(mem), mem, owner, d, Pdx(va), Ptx(va), Pte(true, frame, flags))
      ensures DataSame(old(mem), mem, old(owner)) && Slots(mem, d) == Slots(old(mem), d)
    {
      PageDigits(va);
      ghost var i, j, e := Pdx(va), Ptx(va), Pte(true, frame, flags);
      StoreEntry(mem, owner, d, i, j, e);
      if own {
        StoreUser(mem, owner, d, i, j, frame, flags);
        TableFree(free, owner, frame, User(d, i, j));
        owner := owner[frame := User(d, i, j)];
      } else {
        StoreShared(mem, owner, d, i, j, e);
      }
      SameSlots(mem, mem[t := mem[t][Ptx(va) := Pte(true, frame, flags)]], d);
      mem := mem[t := mem[t][Ptx(va) := Pte(true, frame, flags)]];
    }

    /** memset or memmove of a whole page held by the kernel. */
    method SetPage(f: nat, p: Page)
      requires Valid() && Is(owner, f, Held)
      modifies this`mem
      ensures Valid() && mem == old(mem)[f := p] && SameView(old(mem), mem, owner)
    {
      ScratchWrite(mem, owner, f, p);
      mem := mem[f := p];
    }

    /**
     mappages: the pages touched by `va .. va + size` up to page `k` now map the frames from `pa` on and
     nothing else changed; `k` is the end of the range exactly on success.  Frames mapped below
     SHAREDBASE are in the kernel's hand before and belong to their page afterwards.  The range may
     end at the top of the address space.
     */
    method MapPages(d: nat, va: nat, size: nat, pa: nat, flags: nat) returns (r: MapResult, ghost k: int)
      requires Valid() && IsDir(owner, d)
      requires 1 <= size && va + size <= U32 && pa % PGSIZE == 0
      requires HeldFor(owner, PageOf(va), PageOf(va + size - 1) + 1, pa / PGSIZE)
      modifies this
      ensures Valid() && IsDir(owner, d)
      ensures PageOf(va) <= k <= PageOf(va + size - 1) + 1
      ensures r.Entered? <==> k == PageOf(va + size - 1) + 1
      ensures MappedSoFar(old(mem), mem, old(owner), owner, d, PageOf(va), k, pa / PGSIZE, flags)
      ensures r.Remap? ==> !NonePresent(old(mem), d, k, k + 1)
      ensures r.NoMemory? ==> free == [] && k / ENTRIES !in Slots(mem, d)
      ensures !r.Remap? ==> Paid(old(mem), old(free), mem, free, d, SlotsOf(PageOf(va), k), 0)
    {
      RangeEnds(va, size);
      NoneGiven(owner, d, PageOf(va), pa / PGSIZE);
      MappedNone(mem, owner, d, PageOf(va), pa / PGSIZE, flags);
      var a, last := RoundDown(va), RoundDown((va + size - 1) % U32);
      r, k := MapLoop(d, a, last, pa, flags, PageOf(va), PageOf(va + size - 1) + 1, pa / PGSIZE);
    }

    /** The loop of mappages, from page `lo` to before page `hi`. */
    method MapLoop(d: nat, first: nat, last: nat, pa: nat, flags: nat, ghost lo: int, ghost hi: int, ghost pf: int)
      returns (r: MapResult, ghost k: int)
      requires Valid() && IsDir(owner, d) && pa / PGSIZE == pf && HeldFor(owner, lo, hi, pf)
      requires lo < hi <= ENTRIES * ENTRIES && first == lo * PGSIZE && last == (hi - 1) * PGSIZE
      requires MappedSoFar(mem, mem, owner, owner, d, lo, lo, pf, flags)
      modifies this
      ensures Valid() && IsDir(owner, d) && lo <= k <= hi && (r.Entered? <==> k == hi)
      ensures MappedSoFar(old(mem), mem, old(owner), owner, d, lo, k, pf, flags)
      ensures r.Remap? ==> !NonePresent(old(mem), d, k, k + 1)
      ensures r.NoMemory? ==> free == [] && k / ENTRIES !in Slots(mem, d)
      ensures !r.Remap? ==> Paid(old(mem), old(free), mem, free, d, SlotsOf(lo, k), 0)
    {
      var a, p := first, pa;
      k := lo;
      PaidNothing(mem, free, d);
      while true
        invariant lo <= k < hi && a == k * PGSIZE && p / PGSIZE == pf + (k - lo)
        invariant Valid() && IsDir(owner, d) && MappedSoFar(old(mem), mem, old(owner), owner, d, lo, k, pf, flags)
        invariant Paid(old(mem), old(free), mem, free, d, SlotsOf(lo, k), 0)
        decreases hi - k
      {
        HeldAt(old(owner), lo, k, hi, pf, a, p / PGSIZE);
        NextPage(a, p, k, hi);
        ghost var mem1, free1, k1 := mem, free, k;
        r, k := MapRound(d, a, p / PGSIZE, flags, old(mem), old(owner), lo, k, pf);
        if r.Entered? {
          PaidRound(old(mem), old(free), mem1, free1, mem, free, d, lo, k1, Pdx(a));
        }
        if !r.Entered? || a == last {
          return;
        }
        a := (a + PGSIZE) % U32;
        p := p + PGSIZE;
      }
    }

    /** One round of that loop, seen from where the loop started with memory `mem0` and owners `o0`. */
    method MapRound(d: nat, a: nat, frame: nat, flags: nat, ghost mem0: Mem, ghost o0: Owners,
                    ghost lo: int, ghost k: int, ghost pf: int) returns (r: MapResult, ghost k': int)
      requires Valid() && IsDir(owner, d) && a < U32 && a == k * PGSIZE && lo <= k && frame == pf + (k - lo)
      requires MappedSoFar(mem0, mem, o0, owner, d, lo, k, pf, flags) && (a < SHAREDBASE ==> Is(o0, frame, Held))
      modifies this
      ensures Valid() && IsDir(owner, d)
      ensures k' == (if r.Entered? then k + 1 else k) && MappedSoFar(mem0, mem, o0, owner, d, lo, k', pf, flags)
      ensures r.Remap? ==> !NonePresent(mem0, d, k, k + 1)
      ensures r.NoMemory? ==> free == old(free) == [] && mem == old(mem) && Pdx(a) !in Slots(mem, d)
      ensures !r.NoMemory? ==> Paid(old(mem), old(free), mem, free, d, {Pdx(a)}, 0)
    {
      PageDigits(a);
      ghost var mem1, o1, own := mem, owner, a < SHAREDBASE;
      HeldStill(o0, owner, d, lo, k, pf, frame);
      r := MapPage(d, a, frame, flags, own);
      k' := if r.Entered? then k + 1 else k;
      if r.Entered? {
        RoundEntered(mem0, mem1, mem, o0, o1, owner, d, lo, k, pf, flags, a, frame);
      } else {
        RoundRefused(mem0, mem1, mem, o0, o1, owner, d, lo, k, pf, flags, a);
      }
    }

    /** The body of deallocuvm's loop for a present page: free its frame, then clear its entry. */
    method UnmapPage(d: nat, va: nat, t: nat)
      requires Valid() && IsDir(owner, d) && va < SHAREDBASE
      requires Word(mem, d, Pdx(va)).present && Word(mem, d, Pdx(va)).frame == t
      requires Entry(mem, d, Pdx(va), Ptx(va)).present
      modifies this
      ensures Valid() && IsDir(owner, d)
      ensures var f := Entry(old(mem), d, Pdx(va), Ptx(va)).frame;
              Is(old(owner), f, User(d, Pdx(va), Ptx(va))) && owner == old(owner)[f := Free]
      ensures OneEntry(old(mem), mem, owner, d, Pdx(va), Ptx(va), NOPTE)
    {
      PageDigits(va);
      ghost var i, j := Pdx(va), Ptx(va);
      ClearUser(mem, owner, d, i, j);
      var f := mem[t][Ptx(va)].frame;
      assert f != 0;  // deallocuvm's panic on physical address 0 cannot happen
      ghost var mem1, owner1 := WithEntry(mem, d, i, j, NOPTE), owner[f := Held];
      ScratchWrite(mem1, owner1, f, JunkPage());
      Reowned(mem1[f := JunkPage()], owner1, f, Free);
      KfreeFree(free, owner, f);
      mem := mem[f := JunkPage()];
      free := [f] + free;
      mem := mem[t := mem[t][Ptx(va) := NOPTE]];
      owner := owner[f := Free];
      assert mem == mem1[f := JunkPage()];
      assert owner == owner1[f := Free];
      EntryThenScratch(old(mem), mem1, mem, owner1, owner, d, i, j, NOPTE);
    }

    /**
     deallocuvm: every mapped page from newsz up to oldsz is unmapped and its frame freed; all other
     mappings and frames stay.  Skipping a directory entry that has no table skips nothing mapped.
     */
    method DeallocUvm(d: nat, oldsz: nat, newsz: nat) returns (r: nat)
      requires Valid() && IsDir(owner, d) && oldsz <= SHAREDBASE && newsz < U32
      modifies this
      ensures Valid() && IsDir(owner, d)
      ensures r == if newsz >= oldsz then oldsz else newsz
      ensures newsz >= oldsz ==> mem == old(mem) && owner == old(owner) && free == old(free)
      ensures newsz < oldsz ==> Unmapped(old(mem), mem, owner, d, PagesFor(newsz), PagesFor(oldsz))
      ensures newsz < oldsz ==> FreedPages(old(owner), owner, d, PagesFor(newsz), PagesFor(oldsz))
    {
      if newsz >= oldsz {
        return oldsz;
      }
      var a := RoundUp(newsz);
      ghost var lo, hi, v := PagesFor(newsz), PagesFor(oldsz), PagesFor(newsz);
      while a < oldsz
        invariant Valid() && IsDir(owner, d)
        invariant a == v * PGSIZE && lo <= v
        invariant Unmapped(old(mem), mem, owner, d, lo, v) && FreedPages(old(owner), owner, d, lo, v)
        invariant v <= hi || NonePresent(old(mem), d, hi, v)
        decreases oldsz - a
      {
        PageDigits(a);
        var t, ok := Walk(d, a, false);
        if !ok {
          SkipDir(old(mem), mem, old(owner), owner, d, lo, v, Pdx(a));
          SkipHigh(old(mem), d, hi, v, (Pdx(a) + 1) * ENTRIES);
          v := (Pdx(a) + 1) * ENTRIES;
          a := (Pdx(a) + 1) * 0x40_0000;
        } else {
          ghost var mem1, owner1 := mem, owner;
          if mem[t][Ptx(a)].present {
            UnmapPage(d, a, t);
            UnmapStep(old(mem), mem1, mem, old(owner), owner1, owner, d, lo, v, Pdx(a), Ptx(a));
          } else {
            UnmapNothing(old(mem), mem, old(owner), owner, d, lo, v, Pdx(a), Ptx(a));
          }
          v := v + 1;
          a := a + PGSIZE;
        }
      }
      UnmapClip(old(mem), mem, old(owner), owner, d, lo, hi, v);
      return newsz;
    }

    /** One round of allocuvm: a fresh zeroed frame at page `va`; `f` stays in hand if only the mapping failed. */
    method AllocPage(d: nat, va: nat) returns (r: AllocResult)
      requires Valid() && IsDir(owner, d) && va < SHAREDBASE && !Entry(mem, d, Pdx(va), Ptx(va)).present
      modifies this
      ensures Valid() && IsDir(owner, d) && DataSame(old(mem), mem, old(owner))
      ensures r.Allocated? ==> OneEntry(old(mem), mem, owner, d, Pdx(va), Ptx(va), Pte(true, r.f, PTE_W + PTE_U))
      ensures r.Allocated? ==> AllocOwners(old(owner), owner, mem, d, PageOf(va), PageOf(va) + 1)
      ensures r.Allocated? ==> Paid(old(mem), old(free), mem, free, d, {Pdx(va)}, 1)
      ensures r.NoFrame? ==> mem == old(mem) && owner == old(owner) && free == old(free) == []
      ensures r.NoTable? ==> SameView(old(mem), mem, owner) && |old(free)| == 1 && Pdx(va) !in Slots(old(mem), d)
      ensures r.NoTable? ==> Is(old(owner), r.f, Free) && owner == old(owner)[r.f := Held]
    {
      var f, ok := Kalloc();
      if !ok {
        return NoFrame;
      }
      var m := EnterFresh(d, va, f);
      if m.NoMemory? {
        return NoTable(f);
      }
      return Allocated(f);
    }

    /** Zero the frame and map it. */
    method EnterFresh(d: nat, va: nat, f: nat) returns (r: MapResult)
      requires Valid() && IsDir(owner, d) && va < SHAREDBASE && !Entry(mem, d, Pdx(va), Ptx(va)).present
      requires Is(owner, f, Held)
      modifies this
      ensures Valid() && IsDir(owner, d) && DataSame(old(mem), mem, old(owner)[f := Free]) && !r.Remap?
      ensures r.Entered? ==> OneEntry(old(mem), mem, owner, d, Pdx(va), Ptx(va), Pte(true, f, PTE_W + PTE_U))
      ensures r.Entered? ==> AllocOwners(old(owner)[f := Free], owner, mem, d, PageOf(va), PageOf(va) + 1)
      ensures r.Entered? ==> Paid(old(mem), old(free), mem, free, d, {Pdx(va)}, 0)
      ensures r.NoMemory? ==> free == old(free) == [] && owner == old(owner) && SameView(old(mem), mem, owner)
      ensures r.NoMemory? ==> Pdx(va) !in Slots(old(mem), d)
    {
      PageDigits(va);
      ghost var mem0, owner0 := mem, owner;
      SetPage(f, ZeroPage());
      SameSlots(mem0, mem, d);
      assert Entry(mem, d, Pdx(va), Ptx(va)) == Entry(mem0, d, Pdx(va), Ptx(va));
      ghost var mem1 := mem;
      r := MapPage(d, va, f, PTE_W + PTE_U, true);
      FreshData(mem0, mem1, mem, owner0, f);
      if r.Entered? {
        FreshOwners(owner0, owner, mem1, mem, d, va, f);
        OneEntryAfter(mem0, mem1, mem, owner0, owner, d, Pdx(va), Ptx(va), Pte(true, f, PTE_W + PTE_U));
      }
    }

    /**
     allocuvm: on success the pages from oldsz up to newsz map fresh zeroed frames of their own and
     nothing else changed; when memory runs out, every mapping is as before and only page tables of
     this directory may have been added.  It fails exactly if there are fewer free frames than the
     new pages and their page tables need.
     */
    method AllocUvm(d: nat, oldsz: nat, newsz: nat) returns (r: nat, ghost failed: bool)
      requires Valid() && IsDir(owner, d) && oldsz <= SHAREDBASE
      requires NonePresent(mem, d, PagesFor(oldsz), SHAREDPDX * ENTRIES)
      modifies this
      ensures Valid() && IsDir(owner, d)
      ensures newsz >= SHAREDBASE ==> failed && r == 0
      ensures newsz < SHAREDBASE && newsz < oldsz ==> !failed && r == oldsz
      ensures newsz < SHAREDBASE && oldsz <= newsz ==> r == if failed then 0 else newsz
      ensures !(oldsz <= newsz < SHAREDBASE) ==> mem == old(mem) && owner == old(owner)
      ensures oldsz <= newsz < SHAREDBASE && !failed ==>
                Grown(old(mem), mem, owner, d, PagesFor(oldsz), PagesFor(newsz))
                && AllocOwners(old(owner), owner, mem, d, PagesFor(oldsz), PagesFor(newsz))
      ensures oldsz <= newsz < SHAREDBASE && failed ==>
                AgreeView(old(mem), mem, owner) && GrewTables(old(owner), owner, d)
      ensures oldsz <= newsz < SHAREDBASE ==>
                (failed <==> |old(free)| < PageCost(old(mem), d, PagesFor(oldsz), PagesFor(newsz)))
    {
      if newsz >= SHAREDBASE {
        return 0, true;
      }
      if newsz < oldsz {
        return oldsz, false;
      }
      var ok := AllocLoop(d, oldsz, newsz, PagesFor(oldsz), PagesFor(newsz));
      return if ok then newsz else 0, !ok;
    }

    /** The loop of allocuvm, over the pages `lo..hi`. */
    method AllocLoop(d: nat, oldsz: nat, newsz: nat, ghost lo: int, ghost hi: int) returns (ok: bool)
      requires Valid() && IsDir(owner, d) && oldsz <= newsz < SHAREDBASE
      requires lo == PagesFor(oldsz) && hi == PagesFor(newsz) && NonePresent(mem, d, lo, SHAREDPDX * ENTRIES)
      modifies this
      ensures Valid() && IsDir(owner, d) && (ok <==> |old(free)| >= PageCost(old(mem), d, lo, hi))
      ensures ok ==> Grown(old(mem), mem, owner, d, lo, hi) && AllocOwners(old(owner), owner, mem, d, lo, hi)
      ensures !ok ==> AgreeView(old(mem), mem, owner) && GrewTables(old(owner), owner, d)
    {
      var a := RoundUp(oldsz);
      ghost var v := lo;
      PaidNothing(mem, free, d);
      SizesPages(oldsz, newsz, lo, hi);
      while a < newsz
        invariant Valid() && IsDir(owner, d) && a == v * PGSIZE && lo <= v <= hi
        invariant AllocSoFar(old(mem), old(free), old(owner), mem, free, owner, d, lo, v)
        decreases newsz - a
      {
        ghost var mem1, free1, owner1, v1 := mem, free, owner, v;
        BelowEnd(newsz, a, v, hi);
        var x;
        x, v := AllocRound(d, a, old(mem), old(free), old(owner), lo, v, hi);
        if !x.Allocated? {
          Undo(d, newsz, oldsz, x, old(mem), old(free), old(owner), mem1, free1, owner1, lo, v1, hi);
          return false;
        }
        a := a + PGSIZE;
      }
      AllocEnd(newsz, a, v);
      AllocPaid(old(mem), old(free), mem, free, d, lo, hi);
      return true;
    }

    /** One round of that loop, seen from where it started with `mem0`, `free0` and `owner0`. */
    method AllocRound(d: nat, a: nat, ghost mem0: Mem, ghost free0: seq<nat>, ghost owner0: Owners, ghost lo: int,
                      ghost v: int, ghost hi: int) returns (x: AllocResult, ghost v': int)
      requires Valid() && IsDir(owner, d) && a == v * PGSIZE && 0 <= lo <= v < hi <= SHAREDPDX * ENTRIES
      requires AllocSoFar(mem0, free0, owner0, mem, free, owner, d, lo, v)
      requires NonePresent(mem0, d, lo, SHAREDPDX * ENTRIES)
      modifies this
      ensures Valid() && IsDir(owner, d)
      ensures v' == v + 1 && (x.Allocated? ==> AllocSoFar(mem0, free0, owner0, mem, free, owner, d, lo, v'))
      ensures !x.Allocated? ==> Refused(old(mem), old(owner), mem, owner, x) && |free0| < PageCost(mem0, d, lo, hi)
    {
      PageDigits(a);
      ghost var mem1, free1, owner1 := mem, free, owner;
      v' := v + 1;
      GrownBeyond(mem0, mem, owner, d, lo, v, Pdx(a), Ptx(a));
      x := AllocPage(d, a);
      if x.Allocated? {
        RoundAllocated(mem0, free0, owner0, mem1, free1, owner1, mem, free, owner, d, lo, v, v', a, x.f);
      } else {
        SlotOfPage(a, v);
        RefusedIs(mem1, owner1, mem, owner, x);
        AllocShort(mem0, free0, mem1, free1, d, lo, v, hi, Pdx(a));
      }
    }

    /** The failure path of allocuvm: unmap what was mapped, give back a frame left in hand. */
    method Undo(d: nat, newsz: nat, oldsz: nat, x: AllocResult, ghost mem0: Mem, ghost free0: seq<nat>,
                ghost owner0: Owners, ghost mem1: Mem, ghost free1: seq<nat>, ghost owner1: Owners,
                ghost lo: int, ghost v: int, ghost hi: int)
      requires Valid() && IsDir(owner, d) && oldsz <= newsz < SHAREDBASE && !x.Allocated?
      requires lo == PagesFor(oldsz) && hi == PagesFor(newsz) && lo <= v <= hi
      requires NonePresent(mem0, d, lo, SHAREDPDX * ENTRIES) && UsersOk(mem0, owner0)
      requires AllocSoFar(mem0, free0, owner0, mem1, free1, owner1, d, lo, v) && Refused(mem1, owner1, mem, owner, x)
      modifies this
      ensures Valid() && IsDir(owner, d)
      ensures AgreeView(mem0, mem, owner) && GrewTables(owner0, owner, d)
    {
      ghost var owner2 := owner;
      UndoUnmap(d, newsz, oldsz, mem0, mem1, owner1, v);
      ghost var mem3, owner3 := mem, owner;
      SizesPages(oldsz, newsz, lo, hi);
      UndoOwners(mem0, owner0, owner1, owner2, owner3, mem1, d, lo, hi, v, x);
      if x.NoTable? {
        Kfree(x.f);
        AgreeScratch(mem0, mem3, mem, owner3, owner);
      }
    }

    method UndoUnmap(d: nat, newsz: nat, oldsz: nat, ghost mem0: Mem, ghost mem1: Mem, ghost owner1: Owners,
                     ghost v: int)
      requires Valid() && IsDir(owner, d) && oldsz <= newsz < SHAREDBASE
      requires NonePresent(mem0, d, PagesFor(oldsz), SHAREDPDX * ENTRIES)
      requires Grown(mem0, mem1, owner1, d, PagesFor(oldsz), v) && PagesFor(oldsz) <= v <= PagesFor(newsz)
      requires SameView(mem1, mem, owner) && (forall e :: IsDir(owner1, e) <==> IsDir(owner, e))
      modifies this
      ensures Valid() && IsDir(owner, d) && AgreeView(mem0, mem, owner)
      ensures FreedPages(old(owner), owner, d, PagesFor(oldsz), PagesFor(newsz))
    {
      ghost var mem2, owner2 := mem, owner;
      if newsz == oldsz {
        AgreeNothing(mem0, mem1, mem, owner1, owner, d, PagesFor(oldsz), v);
      } else {
        var _ := DeallocUvm(d, newsz, oldsz);
        AgreeUndone(mem0, mem1, mem2, mem, owner1, owner2, owner, d, PagesFor(oldsz), PagesFor(newsz), v);
      }
    }
  }

  // ---------- the free list under these changes ----------

  lemma KallocFree(free: seq<nat>, o: Owners)
    requires FreeOk(free, o) && free != []
    ensures FreeOk(free[1..], o[free[0] := Held])
  {
    forall f | f in free[1..]
      ensures f != free[0] && f in free
    {
      var k :| 0 <= k < |free| - 1 && free[1..][k] == f;
      assert free[k + 1] == f;
    }
    forall f | f in o && o[f].Free? && f != free[0]
      ensures f in free[1..]
    {
      assert f in free;
      var k :| 0 <= k < |free| && free[k] == f;
      assert free[1..][k - 1] == f;
    }
  }

  lemma KfreeFree(free: seq<nat>, o: Owners, f: nat)
    requires FreeOk(free, o) && f in o && !o[f].Free?
    ensures FreeOk([f] + free, o[f := Free])
  {
    assert f !in free;
  }

  lemma TableFree(free: seq<nat>, o: Owners, f: nat, x: Owner)
    requires FreeOk(free, o) && f in o && !o[f].Free? && !x.Free?
    ensures FreeOk(free, o[f := x])
  {
  }

  /** Ownership after handing `frame` to the user page `va`, or unchanged. */
  ghost function GivenTo(o: Owners, d: nat, va: nat, frame: nat, own: bool): (o': Owners) {
    if own then o[frame := User(d, Pdx(va), Ptx(va))] else o
  }

  lemma GivenAfter(o: Owners, o1: Owners, o2: Owners, d: nat, va: nat, frame: nat, own: bool)
    requires GrewTables(o, o1, d) && o2 == GivenTo(o1, d, va, frame, own) && (own ==> Is(o, frame, Held))
    ensures GrewTables(GivenTo(o, d, va, frame, own), o2, d)
  {
  }

  lemma OneEntryAfter(mem: Mem, mem1: Mem, mem2: Mem, o1: Owners, o2: Owners, d: nat, i: nat, j: nat, e: Pte)
    requires SameView(mem, mem1, o1) && OneEntry(mem1, mem2, o2, d, i, j, e)
    requires forall k :: IsDir(o1, k) <==> IsDir(o2, k)
    ensures OneEntry(mem, mem2, o2, d, i, j, e)
  {
    forall d2, i2, j2 | IsDir(o2, d2) && 0 <= i2 < ENTRIES && 0 <= j2 < ENTRIES
      ensures Entry(mem2, d2, i2, j2) == if d2 == d && i2 == i && j2 == j then e else Entry(mem, d2, i2, j2)
    {
      assert IsDir(o1, d2) && Entry(mem1, d2, i2, j2) == Entry(mem, d2, i2, j2);
    }
  }

  // ---------- mapping page after page ----------

  /** Frame `f` is the one that mapping pages `lo..k` to the frames from `pf` on gives to a page below SHAREDBASE. */
  ghost predicate IsGiven(f: nat, lo: int, k: int, pf: int) {
    pf <= f && lo + (f - pf) < k && lo + (f - pf) < SHAREDBASE / PGSIZE
  }

  /** Those frames are in the kernel's hand. */
  ghost predicate HeldFor(o: Owners, lo: int, hi: int, pf: int) {
    forall f: nat :: IsGiven(f, lo, hi, pf) ==> Is(o, f, Held)
  }

  /** Those frames now belong to their pages of `d`. */
  ghost function GivenRange(o: Owners, d: nat, lo: int, k: int, pf: int): (o': Owners) {
    map f | f in o ::
      if IsGiven(f, lo, k, pf) then User(d, (lo + (f - pf)) / ENTRIES, (lo + (f - pf)) % ENTRIES) else o[f]
  }

  /** What the rounds of mappages have done when they reach page `k`. */
  ghost predicate MappedSoFar(mem0: Mem, mem: Mem, o0: Owners, o: Owners, d: nat, lo: int, k: int, pf: int,
                              flags: nat) {
    && Mapped(mem0, mem, o, d, lo, k, pf, flags) && NonePresent(mem0, d, lo, k)
    && GrewTables(GivenRange(o0, d, lo, k, pf), o, d)
  }

  lemma NoneGiven(o: Owners, d: nat, lo: int, pf: int)
    ensures GivenRange(o, d, lo, lo, pf) == o
  {
  }

  lemma HeldAt(o: Owners, lo: int, k: int, hi: int, pf: int, a: nat, frame: nat)
    requires HeldFor(o, lo, hi, pf) && lo <= k < hi && a == k * PGSIZE && frame == pf + (k - lo)
    ensures a < SHAREDBASE ==> Is(o, frame, Held)
  {
    assert a < SHAREDBASE ==> IsGiven(frame, lo, hi, pf);
  }

  /** What a round of mappages that enters a page adds to the rounds before. */
  lemma RoundEntered(mem0: Mem, mem1: Mem, mem2: Mem, o0: Owners, o1: Owners, o2: Owners, d: nat,
                     lo: int, k: int, pf: int, flags: nat, a: nat, frame: nat)
    requires MappedSoFar(mem0, mem1, o0, o1, d, lo, k, pf, flags) && IsDir(o1, d)
    requires a < U32 && a == k * PGSIZE && lo <= k && frame == pf + (k - lo)
    requires a < SHAREDBASE ==> Is(o1, frame, Held)
    requires !Entry(mem1, d, Pdx(a), Ptx(a)).present
    requires OneEntry(mem1, mem2, o2, d, Pdx(a), Ptx(a), Pte(true, frame, flags))
    requires GrewTables(GivenTo(o1, d, a, frame, a < SHAREDBASE), o2, d)
    ensures MappedSoFar(mem0, mem2, o0, o2, d, lo, k + 1, pf, flags)
  {
    PageDigits(a);
    SameDirs(o1, o2, d, a, frame, a < SHAREDBASE);
    MappedStep(mem0, mem1, mem2, o1, o2, d, lo, k, pf, flags, Pdx(a), Ptx(a));
    GivenStep(o0, o1, o2, d, lo, k, pf, a, frame);
  }

  lemma SameDirs(o1: Owners, o2: Owners, d: nat, a: nat, frame: nat, own: bool)
    requires GrewTables(GivenTo(o1, d, a, frame, own), o2, d) && (own ==> Is(o1, frame, Held))
    ensures forall e :: IsDir(o1, e) <==> IsDir(o2, e)
  {
  }

  lemma RoundRefused(mem0: Mem, mem1: Mem, mem2: Mem, o0: Owners, o1: Owners, o2: Owners, d: nat,
                     lo: int, k: int, pf: int, flags: nat, a: nat)
    requires MappedSoFar(mem0, mem1, o0, o1, d, lo, k, pf, flags) && IsDir(o1, d) && a < U32 && a == k * PGSIZE
    requires SameView(mem1, mem2, o2) && GrewTables(o1, o2, d)
    ensures MappedSoFar(mem0, mem2, o0, o2, d, lo, k, pf, flags)
    ensures Entry(mem1, d, Pdx(a), Ptx(a)).present ==> !NonePresent(mem0, d, k, k + 1)
  {
    PageDigits(a);
    StillPresent(mem0, mem1, o1, d, lo, k, pf, flags, Pdx(a), Ptx(a));
    MappedSame(mem0, mem1, mem2, o1, o2, d, lo, k, pf, flags);
    GrewMore(GivenRange(o0, d, lo, k, pf), o1, o2, d);
  }

  lemma HeldStill(o0: Owners, o1: Owners, d: nat, lo: int, k: int, pf: int, frame: nat)
    requires GrewTables(GivenRange(o0, d, lo, k, pf), o1, d) && frame == pf + (k - lo)
    ensures Is(o0, frame, Held) ==> Is(o1, frame, Held)
  {
  }

  lemma GivenStep(o0: Owners, o1: Owners, o2: Owners, d: nat, lo: int, k: int, pf: int, a: nat, frame: nat)
    requires GrewTables(GivenRange(o0, d, lo, k, pf), o1, d) && a == k * PGSIZE && a < U32 && lo <= k
    requires frame == pf + (k - lo) && (a < SHAREDBASE ==> Is(o1, frame, Held))
    requires GrewTables(GivenTo(o1, d, a, frame, a < SHAREDBASE), o2, d)
    ensures GrewTables(GivenRange(o0, d, lo, k + 1, pf), o2, d)
  {
    var g, g' := GivenRange(o0, d, lo, k, pf), GivenRange(o0, d, lo, k + 1, pf);
    PageDigits(a);
    assert Pdx(a) == k / ENTRIES && Ptx(a) == k % ENTRIES;
    forall f | f in g'
      ensures f in o2 && (o2[f] == g'[f] || (g'[f].Free? && o2[f].Table? && o2[f].d == d))
    {
      assert f in g && f in o1;
    }
  }

  /** From SHAREDBASE on nothing is given away. */
  lemma NothingGiven(o: Owners, d: nat, lo: int, k: int, pf: int)
    requires SHAREDBASE / PGSIZE <= lo
    ensures HeldFor(o, lo, k, pf) && GivenRange(o, d, lo, k, pf) == o
  {
  }

  lemma RangeEnds(va: nat, size: nat)
    requires 1 <= size && va + size <= U32
    ensures RoundDown(va) == PageOf(va) * PGSIZE
    ensures RoundDown((va + size - 1) % U32) == PageOf(va + size - 1) * PGSIZE
    ensures PageOf(va) < PageOf(va + size - 1) + 1 <= ENTRIES * ENTRIES
  {
  }

  lemma NextPage(a: nat, p: nat, k: int, hi: int)
    requires a == k * PGSIZE && k < hi <= ENTRIES * ENTRIES
    ensures Pdx(a) == k / ENTRIES
    ensures a == (hi - 1) * PGSIZE <==> k + 1 == hi
    ensures k + 1 < hi ==> (a + PGSIZE) % U32 == (k + 1) * PGSIZE < U32
    ensures (p + PGSIZE) / PGSIZE == p / PGSIZE + 1
  {
  }

  lemma MappedNone(mem: Mem, o: Owners, d: nat, lo: int, pf: int, flags: nat)
    ensures Mapped(mem, mem, o, d, lo, lo, pf, flags)
  {
  }

  lemma MappedSame(mem: Mem, mem1: Mem, mem2: Mem, o1: Owners, o2: Owners, d: nat, lo: int, k: int, pf: int, flags: nat)
    requires Mapped(mem, mem1, o1, d, lo, k, pf, flags) && SameView(mem1, mem2, o2)
    requires forall e :: IsDir(o1, e) <==> IsDir(o2, e)
    ensures Mapped(mem, mem2, o2, d, lo, k, pf, flags)
  {
    forall e, i, j | IsDir(o2, e) && 0 <= i < ENTRIES && 0 <= j < ENTRIES
      ensures Entry(mem2, e, i, j) == Entry(mem1, e, i, j)
    {
    }
  }

  lemma MappedStep(mem: Mem, mem1: Mem, mem2: Mem, o1: Owners, o2: Owners, d: nat, lo: int, k: int, pf: int, flags: nat,
                   i: nat, j: nat)
    requires Mapped(mem, mem1, o1, d, lo, k, pf, flags) && lo <= k && 0 <= pf + (k - lo) && IsDir(o1, d)
    requires i < ENTRIES && j < ENTRIES && i * ENTRIES + j == k
    requires OneEntry(mem1, mem2, o2, d, i, j, Pte(true, pf + (k - lo), flags)) && !Entry(mem1, d, i, j).present
    requires forall e :: IsDir(o1, e) <==> IsDir(o2, e)
    requires NonePresent(mem, d, lo, k)
    ensures Mapped(mem, mem2, o2, d, lo, k + 1, pf, flags)
    ensures NonePresent(mem, d, lo, k + 1)
  {
    forall e, i2, j2 | IsDir(o2, e) && 0 <= i2 < ENTRIES && 0 <= j2 < ENTRIES
      ensures if e == d && lo <= i2 * ENTRIES + j2 < k + 1
              then IsPte(Entry(mem2, e, i2, j2), pf + (i2 * ENTRIES + j2 - lo), flags)
              else Entry(mem2, e, i2, j2) == Entry(mem, e, i2, j2)
    {
      assert IsDir(o1, e);
      assert Entry(mem1, e, i2, j2) == Entry(mem1, e, i2, j2);
    }
    assert Entry(mem1, d, i, j) == Entry(mem, d, i, j);
  }

  /** A page the loop has not reached is as it was. */
  lemma StillPresent(mem: Mem, mem1: Mem, o: Owners, d: nat, lo: int, k: int, pf: int, flags: nat, i: nat, j: nat)
    requires Mapped(mem, mem1, o, d, lo, k, pf, flags) && IsDir(o, d)
    requires i < ENTRIES && j < ENTRIES && i * ENTRIES + j == k
    ensures Entry(mem1, d, i, j) == Entry(mem, d, i, j)
  {
  }

  // ---------- unmapping page after page ----------

  /** The number of pages that `sz` bytes need. */
  function PagesFor(sz: nat): (n: nat) {
    (sz + PGSIZE - 1) / PGSIZE
  }

  /** The mapped pages with numbers `lo..hi` of `d` are gone, everything else is as before. */
  ghost predicate Unmapped(mem: Mem, mem': Mem, o: Owners, d: nat, lo: int, hi: int) {
    forall e, i, j {:trigger Entry(mem', e, i, j)} ::
      IsDir(o, e) && 0 <= i < ENTRIES && 0 <= j < ENTRIES ==>
        Entry(mem', e, i, j) ==
          if e == d && lo <= i * ENTRIES + j < hi && Entry(mem, e, i, j).present then NOPTE else Entry(mem, e, i, j)
  }

  ghost predicate IsUserPage(x: Owner, d: nat, lo: int, hi: int) {
    x.User? && x.d == d && lo <= x.i * ENTRIES + x.j < hi
  }

  /** The frames of exactly those pages went to the free list. */
  ghost predicate FreedPages(o: Owners, o': Owners, d: nat, lo: int, hi: int) {
    && o.Keys == o'.Keys
    && forall f :: f in o ==> o'[f] == if IsUserPage(o[f], d, lo, hi) then Free else o[f]
  }

  lemma EntryThenScratch(mem: Mem, mem1: Mem, mem2: Mem, o1: Owners, o2: Owners, d: nat, i: nat, j: nat, e: Pte)
    requires OneEntry(mem, mem1, o1, d, i, j, e) && SameView(mem1, mem2, o1)
    requires forall k :: IsDir(o1, k) <==> IsDir(o2, k)
    ensures OneEntry(mem, mem2, o2, d, i, j, e)
  {
    forall d2, i2, j2 | IsDir(o2, d2) && 0 <= i2 < ENTRIES && 0 <= j2 < ENTRIES
      ensures Entry(mem2, d2, i2, j2) == if d2 == d && i2 == i && j2 == j then e else Entry(mem, d2, i2, j2)
    {
      assert IsDir(o1, d2) && Entry(mem2, d2, i2, j2) == Entry(mem1, d2, i2, j2);
    }
  }

  lemma UnmapStep(mem: Mem, mem1: Mem, mem2: Mem, o: Owners, o1: Owners, o2: Owners, d: nat, lo: int, v: int, i: nat,
                  j: nat)
    requires Unmapped(mem, mem1, o1, d, lo, v) && FreedPages(o, o1, d, lo, v) && lo <= v
    requires i < ENTRIES && j < ENTRIES && i * ENTRIES + j == v && IsDir(o1, d)
    requires OneEntry(mem1, mem2, o2, d, i, j, NOPTE) && Entry(mem1, d, i, j).present
    requires UsersOk(mem1, o1) && i < SHAREDPDX
    requires var f := Entry(mem1, d, i, j).frame; Is(o1, f, User(d, i, j)) && o2 == o1[f := Free]
    ensures Unmapped(mem, mem2, o2, d, lo, v + 1) && FreedPages(o, o2, d, lo, v + 1)
  {
    forall e, i2, j2 | IsDir(o2, e) && 0 <= i2 < ENTRIES && 0 <= j2 < ENTRIES
      ensures Entry(mem2, e, i2, j2) ==
                if e == d && lo <= i2 * ENTRIES + j2 < v + 1 && Entry(mem, e, i2, j2).present then NOPTE
                else Entry(mem, e, i2, j2)
    {
      assert IsDir(o1, e);
      assert Entry(mem1, e, i2, j2) == Entry(mem1, e, i2, j2);
    }
    UnmapOwners(mem1, o, o1, d, lo, v, i, j);
  }

  lemma UnmapOwners(mem1: Mem, o: Owners, o1: Owners, d: nat, lo: int, v: int, i: nat, j: nat)
    requires FreedPages(o, o1, d, lo, v) && lo <= v && UsersOk(mem1, o1) && IsDir(o1, d)
    requires i < SHAREDPDX && j < ENTRIES && i * ENTRIES + j == v
    requires Entry(mem1, d, i, j).present && Is(o1, Entry(mem1, d, i, j).frame, User(d, i, j))
    ensures FreedPages(o, o1[Entry(mem1, d, i, j).frame := Free], d, lo, v + 1)
  {
    var f := Entry(mem1, d, i, j).frame;
    forall g | g in o
      ensures o1[f := Free][g] == if IsUserPage(o[g], d, lo, v + 1) then Free else o[g]
    {
      if IsUserPage(o[g], d, v, v + 1) {
        assert o1[g] == o[g];
        assert IsPageOf(mem1, o1, g, o1[g].d, o1[g].i, o1[g].j);
        assert o1[g].i == i && o1[g].j == j;
      }
    }
  }

  /** Where nothing is mapped, no frame is owned. */
  lemma NoUserPage(mem: Mem, o: Owners, d: nat, lo: int, hi: int, g: nat)
    requires UsersOk(mem, o) && g in o && NonePresent(mem, d, lo, hi)
    ensures !IsUserPage(o[g], d, lo, hi)
  {
    if o[g].User? {
      assert IsPageOf(mem, o, g, o[g].d, o[g].i, o[g].j);
    }
  }

  lemma UnmapNothing(mem: Mem, mem1: Mem, o: Owners, o1: Owners, d: nat, lo: int, v: int, i: nat, j: nat)
    requires Unmapped(mem, mem1, o1, d, lo, v) && FreedPages(o, o1, d, lo, v) && lo <= v
    requires i < ENTRIES && j < ENTRIES && i * ENTRIES + j == v && IsDir(o1, d)
    requires !Entry(mem1, d, i, j).present && UsersOk(mem1, o1)
    ensures Unmapped(mem, mem1, o1, d, lo, v + 1) && FreedPages(o, o1, d, lo, v + 1)
  {
    assert Entry(mem1, d, i, j) == Entry(mem, d, i, j);
    assert NonePresent(mem1, d, v, v + 1);
    forall g | g in o
      ensures !IsUserPage(o[g], d, v, v + 1)
    {
      NoUserPage(mem1, o1, d, v, v + 1, g);
    }
  }

  /** A directory slot without a table has nothing mapped in its 1024 pages. */
  lemma SkipDir(mem: Mem, mem1: Mem, o: Owners, o1: Owners, d: nat, lo: int, v: int, i: nat)
    requires Unmapped(mem, mem1, o1, d, lo, v) && FreedPages(o, o1, d, lo, v) && lo <= v
    requires i < ENTRIES && i * ENTRIES <= v < (i + 1) * ENTRIES && IsDir(o1, d)
    requires !Word(mem1, d, i).present && UsersOk(mem1, o1)
    ensures Unmapped(mem, mem1, o1, d, lo, (i + 1) * ENTRIES) && FreedPages(o, o1, d, lo, (i + 1) * ENTRIES)
    ensures NonePresent(mem, d, v, (i + 1) * ENTRIES)
  {
    forall i2, j2 | 0 <= i2 < ENTRIES && 0 <= j2 < ENTRIES && v <= i2 * ENTRIES + j2 < (i + 1) * ENTRIES
      ensures !Entry(mem, d, i2, j2).present && !Entry(mem1, d, i2, j2).present
    {
      assert i2 == i;
      assert Entry(mem1, d, i2, j2) == Entry(mem, d, i2, j2);
    }
    forall g | g in o
      ensures !IsUserPage(o[g], d, v, (i + 1) * ENTRIES)
    {
      NoUserPage(mem1, o1, d, v, (i + 1) * ENTRIES, g);
    }
  }

  lemma SkipHigh(mem: Mem, d: nat, hi: int, v: int, w: int)
    requires v <= hi || NonePresent(mem, d, hi, v)
    requires NonePresent(mem, d, v, w)
    ensures w <= hi || NonePresent(mem, d, hi, w)
  {
  }

  /** Overshooting `hi` over unmapped pages is the same as stopping there. */
  lemma UnmapClip(mem: Mem, mem1: Mem, o: Owners, o1: Owners, d: nat, lo: int, hi: int, v: int)
    requires Unmapped(mem, mem1, o1, d, lo, v) && FreedPages(o, o1, d, lo, v) && hi <= v
    requires v <= hi || NonePresent(mem, d, hi, v)
    requires UsersOk(mem, o) && IsDir(o1, d)
    ensures Unmapped(mem, mem1, o1, d, lo, hi) && FreedPages(o, o1, d, lo, hi)
  {
    forall g | g in o
      ensures !IsUserPage(o[g], d, hi, v)
    {
      if hi < v {
        NoUserPage(mem, o, d, hi, v, g);
      }
    }
  }

  // ---------- growing an address space ----------

  datatype AllocResult = Allocated(f: nat) | NoFrame | NoTable(f: nat)

  /** Pages `lo..hi` of `d` are mapped writable for the user; everything else is as before. */
  ghost predicate Grown(mem: Mem, mem': Mem, o: Owners, d: nat, lo: int, hi: int) {
    forall e, i, j {:trigger Entry(mem', e, i, j)} ::
      IsDir(o, e) && 0 <= i < ENTRIES && 0 <= j < ENTRIES ==>
        if e == d && lo <= i * ENTRIES + j < hi
        then Entry(mem', e, i, j).present && Entry(mem', e, i, j).flags == PTE_W + PTE_U
        else Entry(mem', e, i, j) == Entry(mem, e, i, j)
  }

  /** Only free frames changed hands: to tables of `d`, or, zeroed, to its pages `lo..hi`. */
  ghost predicate AllocOwners(o: Owners, o': Owners, mem': Mem, d: nat, lo: int, hi: int) {
    && o.Keys == o'.Keys
    && forall f :: f in o ==>
         o'[f] == o[f]
         || (o[f].Free? && ((o'[f].Table? && o'[f].d == d)
                            || (IsUserPage(o'[f], d, lo, hi) && f in mem' && mem'[f] == ZeroPage())))
  }

  ghost predicate Agree(e: Pte, e': Pte) {
    e == e' || (!e.present && !e'.present)
  }

  /** The same pages are mapped, in the same way. */
  ghost predicate AgreeView(mem: Mem, mem': Mem, o: Owners) {
    forall e, i, j {:trigger Entry(mem', e, i, j)} ::
      IsDir(o, e) && 0 <= i < ENTRIES && 0 <= j < ENTRIES ==> Agree(Entry(mem, e, i, j), Entry(mem', e, i, j))
  }

  lemma SameViewTrans(mem0: Mem, mem1: Mem, mem2: Mem, o1: Owners, o2: Owners)
    requires SameView(mem0, mem1, o1) && SameView(mem1, mem2, o2)
    requires forall e :: IsDir(o1, e) <==> IsDir(o2, e)
    ensures SameView(mem0, mem2, o2)
  {
    forall e, i, j | IsDir(o2, e) && 0 <= i < ENTRIES && 0 <= j < ENTRIES
      ensures Entry(mem2, e, i, j) == Entry(mem0, e, i, j)
    {
      assert Entry(mem2, e, i, j) == Entry(mem1, e, i, j);
    }
  }

  lemma GrownBeyond(mem: Mem, mem1: Mem, o: Owners, d: nat, lo: int, v: int, i: nat, j: nat)
    requires Grown(mem, mem1, o, d, lo, v) && IsDir(o, d)
    requires i < ENTRIES && j < ENTRIES && lo <= i * ENTRIES + j == v < SHAREDPDX * ENTRIES
    requires NonePresent(mem, d, lo, SHAREDPDX * ENTRIES)
    ensures !Entry(mem1, d, i, j).present
  {
    assert Entry(mem1, d, i, j) == Entry(mem, d, i, j);
  }

  lemma GrownStep(mem: Mem, mem1: Mem, mem2: Mem, o1: Owners, o2: Owners, d: nat, lo: int, v: int, i: nat, j: nat,
                  x: Pte)
    requires Grown(mem, mem1, o1, d, lo, v) && lo <= v
    requires i < ENTRIES && j < ENTRIES && i * ENTRIES + j == v
    requires OneEntry(mem1, mem2, o2, d, i, j, x) && x.present && x.flags == PTE_W + PTE_U
    requires forall e :: IsDir(o1, e) <==> IsDir(o2, e)
    ensures Grown(mem, mem2, o2, d, lo, v + 1)
  {
    forall e, i2, j2 | IsDir(o2, e) && 0 <= i2 < ENTRIES && 0 <= j2 < ENTRIES
      ensures if e == d && lo <= i2 * ENTRIES + j2 < v + 1
              then Entry(mem2, e, i2, j2).present && Entry(mem2, e, i2, j2).flags == PTE_W + PTE_U
              else Entry(mem2, e, i2, j2) == Entry(mem, e, i2, j2)
    {
      assert IsDir(o1, e) && Entry(mem1, e, i2, j2) == Entry(mem1, e, i2, j2);
    }
  }

  lemma AllocOwnersStep(o: Owners, o1: Owners, o2: Owners, mem1: Mem, mem2: Mem, d: nat, lo: int, v: int)
    requires AllocOwners(o, o1, mem1, d, lo, v) && AllocOwners(o1, o2, mem2, d, v, v + 1) && lo <= v
    requires DataSame(mem1, mem2, o1)
    ensures AllocOwners(o, o2, mem2, d, lo, v + 1)
  {
  }

  /** What unmapping restores: the pages that were added are gone, their frames free again. */
  lemma AgreeUndone(mem0: Mem, mem1: Mem, mem2: Mem, mem3: Mem, o1: Owners, o2: Owners, o3: Owners,
                    d: nat, lo: int, hi: int, v: int)
    requires Grown(mem0, mem1, o1, d, lo, v) && SameView(mem1, mem2, o2) && Unmapped(mem2, mem3, o3, d, lo, hi)
    requires NonePresent(mem0, d, lo, SHAREDPDX * ENTRIES) && lo <= v <= hi <= SHAREDPDX * ENTRIES
    requires forall e :: (IsDir(o1, e) <==> IsDir(o2, e)) && (IsDir(o2, e) <==> IsDir(o3, e))
    ensures AgreeView(mem0, mem3, o3)
  {
    forall e, i, j | IsDir(o3, e) && 0 <= i < ENTRIES && 0 <= j < ENTRIES
      ensures Agree(Entry(mem0, e, i, j), Entry(mem3, e, i, j))
    {
      assert IsDir(o2, e) && IsDir(o1, e);
      assert Entry(mem2, e, i, j) == Entry(mem1, e, i, j);
    }
  }

  lemma UndoOwners(mem0: Mem, o0: Owners, o1: Owners, o2: Owners, o3: Owners, mem1: Mem,
                   d: nat, lo: int, hi: int, v: int, x: AllocResult)
    requires UsersOk(mem0, o0) && NonePresent(mem0, d, lo, SHAREDPDX * ENTRIES) && lo <= v <= hi <= SHAREDPDX * ENTRIES
    requires AllocOwners(o0, o1, mem1, d, lo, v) && !x.Allocated?
    requires if x.NoTable? then Is(o1, x.f, Free) && o2 == o1[x.f := Held] else o2 == o1
    requires FreedPages(o2, o3, d, lo, hi)
    ensures x.NoTable? ==> Is(o3, x.f, Held)
    ensures GrewTables(o0, if x.NoTable? then o3[x.f := Free] else o3, d)
  {
    forall g | g in o0
      ensures !IsUserPage(o0[g], d, lo, hi)
    {
      NoUserPage(mem0, o0, d, lo, hi, g);
    }
  }

  lemma AgreeNothing(mem0: Mem, mem1: Mem, mem2: Mem, o1: Owners, o2: Owners, d: nat, lo: int, v: int)
    requires Grown(mem0, mem1, o1, d, lo, v) && SameView(mem1, mem2, o2) && v == lo
    requires forall e :: IsDir(o1, e) <==> IsDir(o2, e)
    ensures AgreeView(mem0, mem2, o2)
  {
    forall e, i, j | IsDir(o2, e) && 0 <= i < ENTRIES && 0 <= j < ENTRIES
      ensures Agree(Entry(mem0, e, i, j), Entry(mem2, e, i, j))
    {
      assert IsDir(o1, e) && Entry(mem2, e, i, j) == Entry(mem1, e, i, j);
    }
  }

  lemma AgreeScratch(mem0: Mem, mem1: Mem, mem2: Mem, o1: Owners, o2: Owners)
    requires AgreeView(mem0, mem1, o1) && SameView(mem1, mem2, o2)
    requires forall e :: IsDir(o1, e) <==> IsDir(o2, e)
    ensures AgreeView(mem0, mem2, o2)
  {
    forall e, i, j | IsDir(o2, e) && 0 <= i < ENTRIES && 0 <= j < ENTRIES
      ensures Agree(Entry(mem0, e, i, j), Entry(mem2, e, i, j))
    {
      assert IsDir(o1, e) && Entry(mem2, e, i, j) == Entry(mem1, e, i, j);
    }
  }
}
