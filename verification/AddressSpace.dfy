/**
 Whole address spaces (kernel/vm.c): setupkvm, freevm and copyuvm, and what they give and take.
 */
module AddressSpace {
  import opened Numbers
  import opened Vm
  import opened MachineMemory

  // ---------- freevm ----------

  /** Frame `f`, used as `x`, is the directory `d`, one of its tables or one of its own user pages. */
  ghost predicate BelongsTo(x: Owner, f: nat, d: nat) {
    f == d || (x.Table? && x.d == d) || (x.User? && x.d == d)
  }

  ghost predicate NoUsers(o: Owners, d: nat) {
    forall f :: f in o ==> !(o[f].User? && o[f].d == d)
  }

  /** Directory `d` and its tables are only frames in hand now; its first `n` tables are freed. */
  ghost predicate Releasing(o: Owners, o': Owners, d: nat, n: int) {
    && o.Keys == o'.Keys
    && forall f :: f in o ==>
         o'[f] == if f == d then Held
                  else if o[f].Table? && o[f].d == d then (if o[f].i < n then Free else Held)
                  else o[f]
  }

  ghost function Abandon(o: Owners, d: nat): (o': Owners)
    ensures Releasing(o, o', d, 0) || exists f :: f in o && o[f].Table? && o[f].i < 0
  {
    map f | f in o :: if f == d || (o[f].Table? && o[f].d == d) then Held else o[f]
  }

  lemma AbandonOk(mem: Mem, free: seq<nat>, o: Owners, d: nat)
    requires Inv(mem, free, o) && IsDir(o, d) && NoUsers(o, d)
    ensures Inv(mem, free, Abandon(o, d)) && Releasing(o, Abandon(o, d), d, 0)
  {
    var o' := Abandon(o, d);
    forall f | f in o && o[f].Table?
      ensures o[f].i >= 0
    {
      assert IsTableOf(mem, o, f, o[f].d, o[f].i);
    }
    AbandonTables(mem, o, d);
    AbandonUsers(mem, o, d);
    forall f | f in free
      ensures Is(o', f, Free)
    {
      assert Is(o, f, Free);
    }
  }

  lemma AbandonTables(mem: Mem, o: Owners, d: nat)
    requires TablesOk(mem, o) && IsDir(o, d)
    ensures TablesOk(mem, Abandon(o, d))
  {
    var o' := Abandon(o, d);
    forall e, i | IsDir(o', e) && 0 <= i < ENTRIES && Word(mem, e, i).present
      ensures Is(o', Word(mem, e, i).frame, Table(e, i))
    {
      assert IsDir(o, e) && e != d;
    }
    forall f | f in o' && o'[f].Table?
      ensures IsTableOf(mem, o', f, o'[f].d, o'[f].i)
    {
      assert IsTableOf(mem, o, f, o[f].d, o[f].i);
    }
  }

  lemma AbandonUsers(mem: Mem, o: Owners, d: nat)
    requires UsersOk(mem, o) && IsDir(o, d) && NoUsers(o, d)
    ensures UsersOk(mem, Abandon(o, d))
  {
    var o' := Abandon(o, d);
    forall e, i, j | IsDir(o', e) && 0 <= i < SHAREDPDX && 0 <= j < ENTRIES && Entry(mem, e, i, j).present
      ensures Is(o', Entry(mem, e, i, j).frame, User(e, i, j))
    {
      assert IsDir(o, e) && Is(o, Entry(mem, e, i, j).frame, User(e, i, j));
    }
    forall f | f in o' && o'[f].User?
      ensures IsPageOf(mem, o', f, o'[f].d, o'[f].i, o'[f].j)
    {
      assert IsPageOf(mem, o, f, o[f].d, o[f].i, o[f].j);
    }
  }

  /** Freeing the table behind slot `i`, if there is one, releases exactly that table. */
  lemma ReleaseOne(mem: Mem, o: Owners, o1: Owners, d: nat, i: nat)
    requires TablesOk(mem, o) && IsDir(o, d) && Releasing(o, o1, d, i) && i < ENTRIES
    ensures var e := Word(mem, d, i);
            if e.present then Is(o1, e.frame, Held) && e.frame != d && Releasing(o, o1[e.frame := Free], d, i + 1)
            else Releasing(o, o1, d, i + 1)
  {
    var e := Word(mem, d, i);
    forall f | f in o && o[f].Table? && o[f].d == d && o[f].i == i
      ensures e.present && f == e.frame
    {
      assert IsTableOf(mem, o, f, d, i);
    }
    if e.present {
      assert Is(o, e.frame, Table(d, i));
    }
  }

  lemma ReleasedAll(mem: Mem, o: Owners, o1: Owners, d: nat)
    requires TablesOk(mem, o) && IsDir(o, d) && NoUsers(o, d) && Releasing(o, o1, d, ENTRIES)
    ensures forall f :: f in o ==> o1[d := Free][f] == if BelongsTo(o[f], f, d) then Free else o[f]
  {
    forall f | f in o && o[f].Table?
      ensures o[f].i < ENTRIES
    {
      assert IsTableOf(mem, o, f, o[f].d, o[f].i);
    }
  }

  /** Everything that belonged to `d` is free, everything else is used as before. */
  ghost predicate FreedAll(o: Owners, o': Owners, d: nat) {
    o.Keys == o'.Keys && forall f :: f in o ==> o'[f] == if BelongsTo(o[f], f, d) then Free else o[f]
  }

  lemma AllUsersFreed(mem: Mem, o: Owners, o1: Owners, d: nat)
    requires UsersOk(mem, o) && FreedPages(o, o1, d, 0, SHAREDPDX * ENTRIES)
    ensures NoUsers(o1, d)
    ensures forall f :: f in o ==> o1[f] == if o[f].User? && o[f].d == d then Free else o[f]
  {
    forall f | f in o && o[f].User? && o[f].d == d
      ensures IsUserPage(o[f], d, 0, SHAREDPDX * ENTRIES)
    {
      assert IsPageOf(mem, o, f, o[f].d, o[f].i, o[f].j);
    }
  }

  lemma OthersUnmapped(mem: Mem, mem1: Mem, o: Owners, o': Owners, d: nat, lo: int, hi: int)
    requires Unmapped(mem, mem1, o, d, lo, hi)
    requires forall e :: IsDir(o', e) ==> IsDir(o, e) && e != d
    ensures SameView(mem, mem1, o')
  {
    forall e, i, j | IsDir(o', e) && 0 <= i < ENTRIES && 0 <= j < ENTRIES
      ensures Entry(mem1, e, i, j) == Entry(mem, e, i, j)
    {
      assert IsDir(o, e);
    }
  }

  lemma FreedAllFrom(o: Owners, o1: Owners, o2: Owners, d: nat)
    requires o.Keys == o1.Keys == o2.Keys && d in o && o1[d] == o[d]
    requires forall f :: f in o ==> o1[f] == if o[f].User? && o[f].d == d then Free else o[f]
    requires forall f :: f in o1 ==> o2[f] == if BelongsTo(o1[f], f, d) then Free else o1[f]
    ensures FreedAll(o, o2, d)
  {
  }

  /**
   freevm frees the directory, its tables and its own user pages, and nothing else: a frame that the
   directory only maps, at or above SHAREDBASE, keeps its owner.
   */
  method FreeVm(m: Machine, d: nat)
    requires m.Valid() && IsDir(m.owner, d)
    modifies m
    ensures m.Valid() && FreedAll(old(m.owner), m.owner, d)
    ensures SameView(old(m.mem), m.mem, m.owner)
  {
    ghost var o := m.owner;
    var _ := m.DeallocUvm(d, SHAREDBASE, 0);
    ghost var mem1, o1 := m.mem, m.owner;
    AllUsersFreed(old(m.mem), o, o1, d);
    AbandonOk(m.mem, m.free, m.owner, d);
    m.owner := Abandon(m.owner, d);
    OthersUnmapped(old(m.mem), mem1, o1, m.owner, d, 0, SHAREDPDX * ENTRIES);
    FreeTables(m, d, o1);
    SameViewStep(old(m.mem), mem1, m.mem, Abandon(o1, d), m.owner);
    ReleasedAll(mem1, o1, m.owner, d);
    ghost var mem2, o2 := m.mem, m.owner;
    m.Kfree(d);
    FreedAllFrom(o, o1, m.owner, d);
    SameViewStep(old(m.mem), mem2, m.mem, o2, m.owner);
  }

  /** The loop of freevm over the directory. */
  method FreeTables(m: Machine, d: nat, ghost o: Owners)
    requires m.Valid() && TablesOk(m.mem, o) && IsDir(o, d) && Releasing(o, m.owner, d, 0)
    modifies m
    ensures m.Valid() && Releasing(o, m.owner, d, ENTRIES) && SameView(old(m.mem), m.mem, m.owner)
  {
    ghost var pg := m.mem[d];
    var i := 0;
    while i < ENTRIES
      invariant 0 <= i <= ENTRIES && m.Valid()
      invariant Releasing(o, m.owner, d, i) && d in m.mem && m.mem[d] == pg
      invariant SameView(old(m.mem), m.mem, m.owner)
    {
      ReleaseOne(old(m.mem), o, m.owner, d, i);
      if m.mem[d][i].present {
        ghost var mem1, o1 := m.mem, m.owner;
        m.Kfree(m.mem[d][i].frame);
        SameViewStep(old(m.mem), mem1, m.mem, o1, m.owner);
      }
      i := i + 1;
    }
  }

  lemma SameViewStep(mem0: Mem, mem1: Mem, mem2: Mem, o1: Owners, o2: Owners)
    requires SameView(mem0, mem1, o1) && SameView(mem1, mem2, o2)
    requires forall e :: IsDir(o2, e) ==> IsDir(o1, e)
    ensures SameView(mem0, mem2, o2)
  {
    forall e, i, j | IsDir(o2, e) && 0 <= i < ENTRIES && 0 <= j < ENTRIES
      ensures Entry(mem2, e, i, j) == Entry(mem0, e, i, j)
    {
      assert IsDir(o1, e) && Entry(mem2, e, i, j) == Entry(mem1, e, i, j);
    }
  }

  // ---------- building an address space ----------

  /** Only free frames changed hands, and they now belong to `d`. */
  ghost predicate Carved(o: Owners, o': Owners, d: nat) {
    && o.Keys == o'.Keys
    && forall f :: f in o ==> o'[f] == o[f] || (o[f].Free? && BelongsTo(o'[f], f, d))
  }

  lemma CarvedMore(o: Owners, o1: Owners, o2: Owners, d: nat)
    requires Carved(o, o1, d) && Carved(o1, o2, d) && d in o1 && !o1[d].Free?
    ensures Carved(o, o2, d)
  {
  }

  lemma GrewIsCarved(o: Owners, o': Owners, d: nat)
    requires GrewTables(o, o', d)
    ensures Carved(o, o', d)
  {
  }

  /** What was carved out of the free frames and then freed leaves everything as it was. */
  lemma CarvedFreed(mem: Mem, free: seq<nat>, o: Owners, o1: Owners, o2: Owners, d: nat)
    requires Inv(mem, free, o) && Is(o, d, Free) && Carved(o, o1, d) && FreedAll(o1, o2, d)
    ensures o2 == o
  {
    forall f | f in o
      ensures o2[f] == o[f]
    {
      if o[f].Table? {
        assert IsTableOf(mem, o, f, o[f].d, o[f].i);
      }
      if o[f].User? {
        assert IsPageOf(mem, o, f, o[f].d, o[f].i, o[f].j);
      }
    }
  }

  lemma NewDir(mem: Mem, free: seq<nat>, o: Owners, d: nat)
    requires Inv(mem, free, o) && Is(o, d, Held)
    ensures var mem', o' := mem[d := ZeroPage()], o[d := Dir];
            && Inv(mem', free, o') && SameView(mem, mem', o)
            && forall i, j :: 0 <= i < ENTRIES && 0 <= j < ENTRIES ==> Entry(mem', d, i, j) == NOPTE
  {
    var mem', o' := mem[d := ZeroPage()], o[d := Dir];
    ScratchWrite(mem, o, d, ZeroPage());
    forall e, i | IsDir(o', e) && 0 <= i < ENTRIES && Word(mem', e, i).present
      ensures Is(o', Word(mem', e, i).frame, Table(e, i))
    {
      assert e != d && IsDir(o, e);
    }
    forall f | f in o' && o'[f].Table?
      ensures IsTableOf(mem', o', f, o'[f].d, o'[f].i)
    {
      assert IsTableOf(mem', o, f, o[f].d, o[f].i);
    }
    forall e, i, j | IsDir(o', e) && 0 <= i < SHAREDPDX && 0 <= j < ENTRIES && Entry(mem', e, i, j).present
      ensures Is(o', Entry(mem', e, i, j).frame, User(e, i, j))
    {
      assert e != d && IsDir(o, e);
    }
    forall f | f in o' && o'[f].User?
      ensures IsPageOf(mem', o', f, o'[f].d, o'[f].i, o'[f].j)
    {
      assert IsPageOf(mem', o, f, o[f].d, o[f].i, o[f].j);
    }
  }

  // ---------- the kernel half ----------

  /** One row of kmap: `size` bytes at virtual address `virt` map physical memory from `start`. */
  datatype Kmap = Kmap(virt: nat, start: nat, size: nat, perm: nat)

  ghost predicate Covers(r: Kmap, v: int) {
    PageOf(r.virt) <= v < PageOf(r.virt) + r.size / PGSIZE
  }

  ghost predicate ValidKmap(ks: seq<Kmap>) {
    && (forall k :: 0 <= k < |ks| ==> ValidRow(ks[k]))
    && (forall k, n, v {:trigger Covers(ks[k], v), Covers(ks[n], v)} ::
          0 <= k < n < |ks| && Covers(ks[k], v) ==> !Covers(ks[n], v))
  }

  ghost predicate ValidRow(r: Kmap) {
    && r.virt % PGSIZE == 0 && r.start % PGSIZE == 0 && r.size % PGSIZE == 0
    && 0 < r.size && KERNBASE <= r.virt && r.virt + r.size <= U32
  }

  const EXTMEM: nat := 0x10_0000
  const PHYSTOP: nat := 0xE00_0000
  const DEVSPACE: nat := 0xFE00_0000

  /** The kernel's own table, for a kernel whose data segment starts at `data`. */
  function KernelMap(data: nat): (ks: seq<Kmap>)
    requires KERNBASE + EXTMEM < data < KERNBASE + PHYSTOP
  {
    [Kmap(KERNBASE, 0, EXTMEM, PTE_W),
     Kmap(KERNBASE + EXTMEM, EXTMEM, data - KERNBASE - EXTMEM, 0),
     Kmap(data, data - KERNBASE, PHYSTOP - (data - KERNBASE), PTE_W),
     Kmap(DEVSPACE, DEVSPACE, U32 - DEVSPACE, PTE_W)]
  }

  /** With a page-aligned data segment the rows are page-aligned, disjoint, and the last ends at 2^32. */
  lemma KernelMapValid(data: nat)
    requires KERNBASE + EXTMEM < data < KERNBASE + PHYSTOP && data % PGSIZE == 0
    ensures ValidKmap(KernelMap(data))
    ensures KernelMap(data)[3].virt + KernelMap(data)[3].size == U32
  {
    KernelRows(data);
    var q := data / PGSIZE;
    assert data == PGSIZE * q;
    forall v
      ensures Covers(KernelMap(data)[0], v) <==> 0x80000 <= v < 0x80100
      ensures Covers(KernelMap(data)[1], v) <==> 0x80100 <= v < q
      ensures Covers(KernelMap(data)[2], v) <==> q <= v < 0x8E000
      ensures Covers(KernelMap(data)[3], v) <==> 0xFE000 <= v < 0x100000
    {
      KernelPages(data, q);
    }
  }

  /** Page `v`, behind a kernel address: its frame and whether it can be written. */
  ghost predicate KernelPage(e: Pte, v: int, data: nat) {
    if KERNBASE / PGSIZE <= v < (KERNBASE + PHYSTOP) / PGSIZE then
      IsPte(e, v - KERNBASE / PGSIZE, if (KERNBASE + EXTMEM) / PGSIZE <= v < data / PGSIZE then 0 else PTE_W)
    else if DEVSPACE / PGSIZE <= v then IsPte(e, v, PTE_W)
    else !e.present
  }

  /**
   What the kernel's rows amount to: every page below PHYSTOP maps its address minus KERNBASE, devices map
   their own addresses, nothing else is mapped, and only the kernel's text cannot be written.
   */
  lemma KernelMapsDirectly(mem: Mem, d: nat, data: nat, i: int, j: int)
    requires KERNBASE + EXTMEM < data < KERNBASE + PHYSTOP && data % PGSIZE == 0
    requires KernelView(mem, d, KernelMap(data), 4) && 0 <= i < ENTRIES && 0 <= j < ENTRIES
    ensures KernelPage(Entry(mem, d, i, j), i * ENTRIES + j, data)
  {
    var ks, q, v, e := KernelMap(data), data / PGSIZE, i * ENTRIES + j, Entry(mem, d, i, j);
    assert data == PGSIZE * q;
    KernelPages(data, q);
    assert Covers(ks[0], v) <==> 0x80000 <= v < 0x80100;
    assert Covers(ks[1], v) <==> 0x80100 <= v < q;
    assert Covers(ks[2], v) <==> q <= v < 0x8E000;
    assert Covers(ks[3], v) <==> 0xFE000 <= v < 0x100000;
    RowFrames(data, q);
  }

  lemma RowFrames(data: nat, q: nat)
    requires KERNBASE + EXTMEM < data < KERNBASE + PHYSTOP && data == PGSIZE * q
    ensures EXTMEM / PGSIZE == 0x100 && (data - KERNBASE) / PGSIZE == q - 0x80000 && DEVSPACE / PGSIZE == 0xFE000
    ensures PageOf(KERNBASE + EXTMEM) == 0x80100 && PageOf(data) == q && PageOf(DEVSPACE) == 0xFE000
  {
  }

  lemma SlotsCount(lo: nat, hi: nat)
    requires lo < hi <= ENTRIES * ENTRIES
    ensures |SlotsOf(lo, hi)| == (hi - 1) / ENTRIES - lo / ENTRIES + 1
  {
    var a, b := lo / ENTRIES, (hi - 1) / ENTRIES;
    var r := Range(a, b - a + 1);
    forall i: nat ensures i in SlotsOf(lo, hi) <==> i in r {
      assert InSlots(lo, hi, i) <==> a <= i <= b;
    }
    assert SlotsOf(lo, hi) == r;
  }

  /** The kernel half takes 64 page tables: 56 below PHYSTOP and 8 for devices. */
  lemma KernelTables(data: nat)
    requires KERNBASE + EXTMEM < data < KERNBASE + PHYSTOP && data % PGSIZE == 0
    ensures |KernelSlots(KernelMap(data), 4)| == 64
  {
    forall i ensures i in KernelSlots(KernelMap(data), 4) <==> 512 <= i < 568 || 1016 <= i < 1024 {
      KernelSlot(data, data / PGSIZE, i);
    }
    TwoRanges(KernelSlots(KernelMap(data), 4), 512, 56, 1016, 8);
  }

  lemma TwoRanges(s: set<int>, a: nat, m: nat, b: nat, n: nat)
    requires a + m <= b && forall i :: i in s <==> a <= i < a + m || b <= i < b + n
    ensures |s| == m + n
  {
    assert s == Range(a, m) + Range(b, n);
  }

  lemma KernelSlot(data: nat, q: nat, i: int)
    requires KERNBASE + EXTMEM < data < KERNBASE + PHYSTOP && data == PGSIZE * q
    ensures i in KernelSlots(KernelMap(data), 4) <==> 512 <= i < 568 || 1016 <= i < 1024
  {
    var ks := KernelMap(data);
    RowSlot(data, q, i);
    assert KernelSlots(ks, 1) == KernelSlots(ks, 0) + RowSlots(ks[0]);
    assert KernelSlots(ks, 2) == KernelSlots(ks, 1) + RowSlots(ks[1]);
    assert KernelSlots(ks, 3) == KernelSlots(ks, 2) + RowSlots(ks[2]);
    assert KernelSlots(ks, 4) == KernelSlots(ks, 3) + RowSlots(ks[3]);
  }

  lemma RowSlot(data: nat, q: nat, i: int)
    requires KERNBASE + EXTMEM < data < KERNBASE + PHYSTOP && data == PGSIZE * q
    ensures i in RowSlots(KernelMap(data)[0]) <==> i == 512
    ensures i in RowSlots(KernelMap(data)[1]) <==> 512 <= i <= (q - 1) / ENTRIES
    ensures i in RowSlots(KernelMap(data)[2]) <==> q / ENTRIES <= i < 568
    ensures i in RowSlots(KernelMap(data)[3]) <==> 1016 <= i < 1024
  {
    KernelPages(data, q);
    RowFrames(data, q);
    assert InSlots(0x80000, 0x80100, i) <==> i == 512;
    assert InSlots(0x80100, q, i) <==> 512 <= i <= (q - 1) / ENTRIES;
    assert InSlots(q, 0x8E000, i) <==> q / ENTRIES <= i < 568;
    assert InSlots(0xFE000, 0x100000, i) <==> 1016 <= i < 1024;
  }

  lemma KernelRows(data: nat)
    requires KERNBASE + EXTMEM < data < KERNBASE + PHYSTOP && data % PGSIZE == 0
    ensures forall k :: 0 <= k < |KernelMap(data)| ==> ValidRow(KernelMap(data)[k])
  {
  }

  lemma KernelPages(data: nat, q: nat)
    requires KERNBASE + EXTMEM < data < KERNBASE + PHYSTOP && data == PGSIZE * q
    ensures PageOf(KERNBASE + EXTMEM) == 0x80100 && (data - KERNBASE - EXTMEM) / PGSIZE == q - 0x80100
    ensures PageOf(data) == q && (PHYSTOP - (data - KERNBASE)) / PGSIZE == 0x8E000 - q
  {
  }

  ghost function RowSlots(r: Kmap): (s: set<int>) {
    SlotsOf(PageOf(r.virt), PageOf(r.virt) + r.size / PGSIZE)
  }

  /** The directory slots that the first `n` rows need page tables for. */
  ghost function KernelSlots(ks: seq<Kmap>, n: nat): (s: set<int>)
    requires n <= |ks|
  {
    if n == 0 then {} else KernelSlots(ks, n - 1) + RowSlots(ks[n - 1])
  }

  lemma {:induction false} KernelSlotsHigh(ks: seq<Kmap>, n: nat, m: nat)
    requires ValidKmap(ks) && n <= m <= |ks|
    ensures KernelSlots(ks, n) <= KernelSlots(ks, m) && forall i :: i in KernelSlots(ks, n) ==> i >= KERNPDX
    decreases m
  {
    if n < m {
      KernelSlotsHigh(ks, n, m - 1);
    } else if n > 0 {
      KernelSlotsHigh(ks, n - 1, n - 1);
      assert ValidRow(ks[n - 1]);
    }
  }

  /** Directory `d` maps what the first `n` rows say, and nothing else. */
  ghost predicate KernelView(mem: Mem, d: nat, ks: seq<Kmap>, n: int)
    requires n <= |ks|
  {
    forall i, j {:trigger Entry(mem, d, i, j)} :: 0 <= i < ENTRIES && 0 <= j < ENTRIES ==>
      && (forall k :: 0 <= k < n && Covers(ks[k], i * ENTRIES + j) ==>
            IsPte(Entry(mem, d, i, j), ks[k].start / PGSIZE + (i * ENTRIES + j - PageOf(ks[k].virt)), ks[k].perm))
      && (Entry(mem, d, i, j).present ==> exists k :: 0 <= k < n && Covers(ks[k], i * ENTRIES + j))
  }

  /** The same for the addresses from KERNBASE on. */
  ghost predicate KernelHalf(mem: Mem, d: nat, ks: seq<Kmap>) {
    forall i, j {:trigger Entry(mem, d, i, j)} :: KERNPDX <= i < ENTRIES && 0 <= j < ENTRIES ==>
      && (forall k :: 0 <= k < |ks| && Covers(ks[k], i * ENTRIES + j) ==>
            IsPte(Entry(mem, d, i, j), ks[k].start / PGSIZE + (i * ENTRIES + j - PageOf(ks[k].virt)), ks[k].perm))
      && (Entry(mem, d, i, j).present ==> exists k :: 0 <= k < |ks| && Covers(ks[k], i * ENTRIES + j))
  }

  lemma KernelHalfKept(mem: Mem, mem': Mem, o: Owners, d: nat, ks: seq<Kmap>, i: nat, j: nat, e: Pte)
    requires KernelHalf(mem, d, ks) && OneEntry(mem, mem', o, d, i, j, e) && IsDir(o, d) && i < KERNPDX
    ensures KernelHalf(mem', d, ks)
  {
    forall a, b | KERNPDX <= a < ENTRIES && 0 <= b < ENTRIES
      ensures Entry(mem', d, a, b) == Entry(mem, d, a, b)
    {
    }
  }

  lemma KernelViewEmpty(mem: Mem, d: nat, ks: seq<Kmap>)
    requires forall i, j :: 0 <= i < ENTRIES && 0 <= j < ENTRIES ==> Entry(mem, d, i, j) == NOPTE
    ensures KernelView(mem, d, ks, 0)
  {
  }

  lemma RowUnmapped(mem: Mem, d: nat, ks: seq<Kmap>, n: nat)
    requires ValidKmap(ks) && n < |ks| && KernelView(mem, d, ks, n)
    ensures var r := ks[n];
            NonePresent(mem, d, PageOf(r.virt), PageOf(r.virt + r.size - 1) + 1)
  {
    var r := ks[n];
    assert ValidRow(r);
    RowEnd(r);
    forall i, j | 0 <= i < ENTRIES && 0 <= j < ENTRIES
        && PageOf(r.virt) <= i * ENTRIES + j < PageOf(r.virt + r.size - 1) + 1
      ensures !Entry(mem, d, i, j).present
    {
      assert Covers(ks[n], i * ENTRIES + j);
    }
  }

  lemma RowEnd(r: Kmap)
    requires ValidRow(r)
    ensures PageOf(r.virt + r.size - 1) + 1 == PageOf(r.virt) + r.size / PGSIZE
  {
  }

  lemma KernelViewStep(mem1: Mem, mem2: Mem, o: Owners, d: nat, ks: seq<Kmap>, n: nat)
    requires ValidKmap(ks) && n < |ks| && KernelView(mem1, d, ks, n) && IsDir(o, d)
    requires var r := ks[n];
             Mapped(mem1, mem2, o, d, PageOf(r.virt), PageOf(r.virt + r.size - 1) + 1, r.start / PGSIZE, r.perm)
    ensures KernelView(mem2, d, ks, n + 1)
  {
    var r := ks[n];
    assert ValidRow(r);
    RowEnd(r);
    forall i, j | 0 <= i < ENTRIES && 0 <= j < ENTRIES
      ensures forall k :: 0 <= k < n + 1 && Covers(ks[k], i * ENTRIES + j) ==>
                IsPte(Entry(mem2, d, i, j), ks[k].start / PGSIZE + (i * ENTRIES + j - PageOf(ks[k].virt)), ks[k].perm)
      ensures Entry(mem2, d, i, j).present ==> exists k :: 0 <= k < n + 1 && Covers(ks[k], i * ENTRIES + j)
    {
      var v := i * ENTRIES + j;
      assert Covers(ks[n], v) <==> PageOf(r.virt) <= v < PageOf(r.virt + r.size - 1) + 1;
      assert Entry(mem1, d, i, j) == Entry(mem1, d, i, j);
    }
  }

  lemma MappedOthers(mem: Mem, mem': Mem, o: Owners, d: nat, lo: int, hi: int, pf: int, flags: nat, o0: Owners)
    requires Mapped(mem, mem', o, d, lo, hi, pf, flags)
    requires forall e :: IsDir(o0, e) ==> IsDir(o, e) && e != d
    ensures SameView(mem, mem', o0)
  {
    forall e, i, j | IsDir(o0, e) && 0 <= i < ENTRIES && 0 <= j < ENTRIES
      ensures Entry(mem', e, i, j) == Entry(mem, e, i, j)
    {
      assert IsDir(o, e);
    }
  }

  /**
   setupkvm: a new directory that maps exactly the kernel's rows; or, when memory runs out, no change
   in who owns what.  It succeeds exactly if there are enough free frames for the directory and the
   page tables of the rows.
   */
  method SetupKvm(m: Machine, ks: seq<Kmap>) returns (d: nat, ok: bool)
    requires m.Valid() && ValidKmap(ks)
    modifies m
    ensures m.Valid() && SameView(old(m.mem), m.mem, old(m.owner))
    ensures ok <==> |old(m.free)| >= 1 + |KernelSlots(ks, |ks|)|
    ensures !ok ==> m.owner == old(m.owner)
    ensures ok ==> Is(old(m.owner), d, Free) && IsDir(m.owner, d)
                   && Carved(old(m.owner), m.owner, d) && KernelView(m.mem, d, ks, |ks|)
    ensures ok ==> Slots(m.mem, d) == KernelSlots(ks, |ks|)
                   && |m.free| == |old(m.free)| - 1 - |KernelSlots(ks, |ks|)|
  {
    d, ok := m.Kalloc();
    if !ok {
      return;
    }
    NewDir(m.mem, m.free, m.owner, d);
    m.mem := m.mem[d := ZeroPage()];
    m.owner := m.owner[d := Dir];
    KernelViewEmpty(m.mem, d, ks);
    NoSlots(m.mem, d);
    ghost var memb, freeb := m.mem, m.free;
    ok := AddRows(m, d, ks, old(m.owner), old(m.mem));
    if ok {
      RowsPaid(memb, freeb, m.mem, m.free, d, ks);
    } else {
      CarvedDirs(old(m.owner), m.owner, d);
      ghost var mem1, o1 := m.mem, m.owner;
      FreeVm(m, d);
      CarvedFreed(old(m.mem), old(m.free), old(m.owner), o1, m.owner, d);
      SameViewStep(old(m.mem), mem1, m.mem, old(m.owner), m.owner);
    }
  }

  lemma NoSlots(mem: Mem, d: nat)
    requires d in mem && mem[d] == ZeroPage()
    ensures Slots(mem, d) == {}
  {
    forall i | 0 <= i < ENTRIES ensures !Word(mem, d, i).present {
    }
  }

  /** The first `k` rows are mapped, and paid for since memory `memb` with free list `freeb`. */
  ghost predicate Rows(mem0: Mem, o0: Owners, memb: Mem, freeb: seq<nat>, mem: Mem, free: seq<nat>, o: Owners, d: nat,
                       ks: seq<Kmap>, k: nat) {
    && k <= |ks| && Carved(o0, o, d) && SameView(mem0, mem, o0) && KernelView(mem, d, ks, k)
    && Paid(memb, freeb, mem, free, d, KernelSlots(ks, k), 0)
  }

  /** The loop of setupkvm over the rows. */
  method AddRows(m: Machine, d: nat, ks: seq<Kmap>, ghost o0: Owners, ghost mem0: Mem) returns (ok: bool)
    requires m.Valid() && IsDir(m.owner, d) && ValidKmap(ks) && KernelView(m.mem, d, ks, 0) && Slots(m.mem, d) == {}
    requires Carved(o0, m.owner, d) && Is(o0, d, Free) && SameView(mem0, m.mem, o0)
    modifies m
    ensures m.Valid() && IsDir(m.owner, d) && Carved(o0, m.owner, d) && SameView(mem0, m.mem, o0)
    ensures ok ==> Rows(mem0, o0, old(m.mem), old(m.free), m.mem, m.free, m.owner, d, ks, |ks|)
    ensures !ok ==> |old(m.free)| < |KernelSlots(ks, |ks|)|
  {
    var k := 0;
    PaidNothing(m.mem, m.free, d);
    while k < |ks|
      invariant 0 <= k <= |ks| && m.Valid() && IsDir(m.owner, d)
      invariant Rows(mem0, o0, old(m.mem), old(m.free), m.mem, m.free, m.owner, d, ks, k)
    {
      ok, k := AddRow(m, d, ks, k, o0, mem0, old(m.mem), old(m.free));
      if !ok {
        return;
      }
    }
    ok := true;
  }

  /** What all rows cost. */
  lemma RowsPaid(memb: Mem, freeb: seq<nat>, mem: Mem, free: seq<nat>, d: nat, ks: seq<Kmap>)
    requires Slots(memb, d) == {} && Paid(memb, freeb, mem, free, d, KernelSlots(ks, |ks|), 0)
    ensures |freeb| == |free| + |KernelSlots(ks, |ks|)| && Slots(mem, d) == KernelSlots(ks, |ks|)
  {
    PaidFrames(memb, freeb, mem, free, d, KernelSlots(ks, |ks|), 0);
    assert KernelSlots(ks, |ks|) - Slots(memb, d) == KernelSlots(ks, |ks|);
  }

  lemma CarvedDirs(o: Owners, o': Owners, d: nat)
    requires Carved(o, o', d)
    ensures forall e :: IsDir(o, e) ==> IsDir(o', e)
  {
  }

  /** One call of mappages in setupkvm. */
  method AddRow(m: Machine, d: nat, ks: seq<Kmap>, k: nat, ghost o0: Owners, ghost mem0: Mem,
                ghost memb: Mem, ghost freeb: seq<nat>) returns (ok: bool, k': nat)
    requires m.Valid() && IsDir(m.owner, d) && ValidKmap(ks) && k < |ks| && Is(o0, d, Free) && Slots(memb, d) == {}
    requires Rows(mem0, o0, memb, freeb, m.mem, m.free, m.owner, d, ks, k)
    modifies m
    ensures m.Valid() && IsDir(m.owner, d) && Carved(o0, m.owner, d) && SameView(mem0, m.mem, o0) && k' == k + 1
    ensures ok ==> Rows(mem0, o0, memb, freeb, m.mem, m.free, m.owner, d, ks, k')
    ensures !ok ==> |freeb| < |KernelSlots(ks, |ks|)|
  {
    ghost var mem1, free1, o1 := m.mem, m.free, m.owner;
    var r := ks[k];
    k' := k + 1;
    assert ValidRow(r);
    RowUnmapped(mem1, d, ks, k);
    ghost var done, part, i;
    ok, done, part, i := MapRow(m, d, r);
    RowPaid(memb, freeb, mem1, free1, m.mem, m.free, d, ks, k, RowSlots(r), part, i, ok);
    RowCarved(mem0, mem1, m.mem, o0, o1, m.owner, d, PageOf(r.virt), done, r.start / PGSIZE, r.perm);
    if ok {
      KernelViewStep(mem1, m.mem, m.owner, d, ks, k);
    }
  }

  lemma RowCarved(mem0: Mem, mem1: Mem, mem2: Mem, o0: Owners, o1: Owners, o2: Owners, d: nat,
                  lo: int, hi: int, pf: int, flags: nat)
    requires Carved(o0, o1, d) && Is(o0, d, Free) && IsDir(o1, d) && SameView(mem0, mem1, o0) && GrewTables(o1, o2, d)
    requires Mapped(mem1, mem2, o2, d, lo, hi, pf, flags)
    ensures Carved(o0, o2, d) && SameView(mem0, mem2, o0)
  {
    GrewIsCarved(o1, o2, d);
    CarvedMore(o0, o1, o2, d);
    CarvedDirs(o0, o2, d);
    MappedOthers(mem1, mem2, o2, d, lo, hi, pf, flags, o0);
    SameViewStep(mem0, mem1, mem2, o0, o0);
  }

  /** What one row cost, or that there was too little for all of them. */
  lemma RowPaid(memb: Mem, freeb: seq<nat>, mem1: Mem, free1: seq<nat>, mem2: Mem, free2: seq<nat>, d: nat,
                ks: seq<Kmap>, k: nat, row: set<int>, part: set<int>, i: int, ok: bool)
    requires ValidKmap(ks) && k < |ks| && Slots(memb, d) == {} && row == RowSlots(ks[k])
    requires Paid(memb, freeb, mem1, free1, d, KernelSlots(ks, k), 0) && Paid(mem1, free1, mem2, free2, d, part, 0)
    requires ok ==> part == row
    requires !ok ==> part <= row && i in row && free2 == [] && i !in Slots(mem2, d)
    ensures ok ==> Paid(memb, freeb, mem2, free2, d, KernelSlots(ks, k + 1), 0)
    ensures !ok ==> |freeb| < |KernelSlots(ks, |ks|)|
  {
    var before, next, all := KernelSlots(ks, k), KernelSlots(ks, k + 1), KernelSlots(ks, |ks|);
    assert next == before + row;
    KernelSlotsHigh(ks, k + 1, |ks|);
    PartPaid(memb, freeb, mem1, free1, mem2, free2, d, before, row, part, next, all, i, ok);
  }

  lemma PartPaid(memb: Mem, freeb: seq<nat>, mem1: Mem, free1: seq<nat>, mem2: Mem, free2: seq<nat>, d: nat,
                 before: set<int>, row: set<int>, part: set<int>, next: set<int>, all: set<int>, i: int, ok: bool)
    requires Slots(memb, d) == {} && next == before + row && next <= all
    requires Paid(memb, freeb, mem1, free1, d, before, 0) && Paid(mem1, free1, mem2, free2, d, part, 0)
    requires ok ==> part == row
    requires !ok ==> part <= row && i in row && free2 == [] && i !in Slots(mem2, d)
    ensures ok ==> Paid(memb, freeb, mem2, free2, d, next, 0)
    ensures !ok ==> |freeb| < |all|
  {
    PaidMore(memb, freeb, mem1, free1, mem2, free2, d, before, 0, part, 0);
    if !ok {
      PaidShort(memb, freeb, mem2, free2, d, before + part, 0, all, i);
      assert all - Slots(memb, d) == all;
    }
  }

  method MapRow(m: Machine, d: nat, r: Kmap) returns (ok: bool, ghost k: int, ghost part: set<int>, ghost i: int)
    requires m.Valid() && IsDir(m.owner, d) && ValidRow(r)
    requires NonePresent(m.mem, d, PageOf(r.virt), PageOf(r.virt + r.size - 1) + 1)
    modifies m
    ensures m.Valid() && IsDir(m.owner, d) && GrewTables(old(m.owner), m.owner, d)
    ensures ok ==> k == PageOf(r.virt + r.size - 1) + 1
    ensures Mapped(old(m.mem), m.mem, m.owner, d, PageOf(r.virt), k, r.start / PGSIZE, r.perm)
    ensures Paid(old(m.mem), old(m.free), m.mem, m.free, d, part, 0)
    ensures ok ==> part == RowSlots(r)
    ensures !ok ==> part <= RowSlots(r) && i in RowSlots(r) && m.free == [] && i !in Slots(m.mem, d)
  {
    var x;
    NothingGiven(m.owner, d, PageOf(r.virt), PageOf(r.virt + r.size - 1) + 1, r.start / PGSIZE);
    x, k := m.MapPages(d, r.virt, r.size, r.start, r.perm);
    NothingGiven(old(m.owner), d, PageOf(r.virt), k, r.start / PGSIZE);
    assert !x.Remap?;  // the rows of kmap do not overlap
    part, i := SlotsOf(PageOf(r.virt), k), k / ENTRIES;
    RowPart(r, k);
    return x.Entered?, k, part, i;
  }

  lemma RowPart(r: Kmap, k: int)
    requires ValidRow(r) && PageOf(r.virt) <= k <= PageOf(r.virt + r.size - 1) + 1
    ensures k == PageOf(r.virt + r.size - 1) + 1 ==> SlotsOf(PageOf(r.virt), k) == RowSlots(r)
    ensures k < PageOf(r.virt + r.size - 1) + 1 ==>
              SlotsOf(PageOf(r.virt), k) <= RowSlots(r) && k / ENTRIES in RowSlots(r)
  {
    RowEnd(r);
    var hi := PageOf(r.virt) + r.size / PGSIZE;
    if k < hi {
      SlotsOfMore(PageOf(r.virt), k, hi);
    }
  }

  // ---------- copyuvm ----------

  /** Page `e2` is a private copy of page `e`: same permissions, same contents. */
  ghost predicate CopyOf(mem: Mem, e: Pte, e2: Pte) {
    e.present && e2.present && e2.flags == e.flags && e.frame in mem && e2.frame in mem && mem[e2.frame] == mem[e.frame]
  }

  /** The first `n` pages of `d2` copy those of `d`; further user pages of `d2` are unmapped. */
  ghost predicate Copied(mem: Mem, d: nat, d2: nat, n: int) {
    forall i, j {:trigger Entry(mem, d2, i, j)} :: 0 <= i < KERNPDX && 0 <= j < ENTRIES ==>
      if i * ENTRIES + j < n then CopyOf(mem, Entry(mem, d, i, j), Entry(mem, d2, i, j))
      else !Entry(mem, d2, i, j).present
  }

  ghost predicate AllPresent(mem: Mem, d: nat, n: int) {
    forall i, j {:trigger Entry(mem, d, i, j)} ::
      0 <= i < ENTRIES && 0 <= j < ENTRIES && i * ENTRIES + j < n ==> Entry(mem, d, i, j).present
  }

  lemma CopiedNone(mem: Mem, d: nat, d2: nat, ks: seq<Kmap>)
    requires ValidKmap(ks) && KernelView(mem, d2, ks, |ks|)
    ensures Copied(mem, d, d2, 0)
  {
    forall i, j | 0 <= i < KERNPDX && 0 <= j < ENTRIES
      ensures !Entry(mem, d2, i, j).present
    {
      forall k | 0 <= k < |ks|
        ensures !Covers(ks[k], i * ENTRIES + j)
      {
        assert ValidRow(ks[k]);
      }
    }
  }

  lemma CopiedStep(mem1: Mem, mem2: Mem, o1: Owners, o2: Owners, d: nat, d2: nat, n: nat, i: nat, j: nat, x: Pte)
    requires Copied(mem1, d, d2, n) && UsersOk(mem1, o1) && DataSame(mem1, mem2, o1)
    requires IsDir(o1, d) && IsDir(o1, d2) && IsDir(o2, d) && IsDir(o2, d2) && d != d2
    requires i < SHAREDPDX && j < ENTRIES && i * ENTRIES + j == n && AllPresent(mem1, d, n + 1)
    requires OneEntry(mem1, mem2, o2, d2, i, j, x)
    requires CopyOf(mem2, Entry(mem1, d, i, j), x)
    ensures Copied(mem2, d, d2, n + 1)
  {
    forall a, b | 0 <= a < KERNPDX && 0 <= b < ENTRIES
      ensures if a * ENTRIES + b < n + 1 then CopyOf(mem2, Entry(mem2, d, a, b), Entry(mem2, d2, a, b))
              else !Entry(mem2, d2, a, b).present
    {
      assert Entry(mem2, d, a, b) == Entry(mem1, d, a, b);
      if a * ENTRIES + b < n {
        assert a < SHAREDPDX;
        assert CopyOf(mem1, Entry(mem1, d, a, b), Entry(mem1, d2, a, b));
        assert Is(o1, Entry(mem1, d, a, b).frame, User(d, a, b));
        assert Is(o1, Entry(mem1, d2, a, b).frame, User(d2, a, b));
      }
    }
  }

  lemma PresentSame(mem: Mem, mem': Mem, o: Owners, d: nat, n: int)
    requires AllPresent(mem, d, n) && SameView(mem, mem', o) && IsDir(o, d)
    ensures AllPresent(mem', d, n)
  {
    forall i, j | 0 <= i < ENTRIES && 0 <= j < ENTRIES && i * ENTRIES + j < n
      ensures Entry(mem', d, i, j).present
    {
      assert Entry(mem', d, i, j) == Entry(mem, d, i, j);
    }
  }

  /** One round of copyuvm; on failure the frame taken for the copy is given back. */
  method CopyPage(m: Machine, d: nat, d2: nat, va: nat) returns (ok: bool, ghost g: nat)
    requires m.Valid() && IsDir(m.owner, d) && IsDir(m.owner, d2) && d != d2 && va < SHAREDBASE
    requires Entry(m.mem, d, Pdx(va), Ptx(va)).present && !Entry(m.mem, d2, Pdx(va), Ptx(va)).present
    modifies m
    ensures m.Valid() && IsDir(m.owner, d2) && Carved(old(m.owner), m.owner, d2)
    ensures !ok ==> SameView(old(m.mem), m.mem, old(m.owner))
    ensures ok ==> DataSame(old(m.mem), m.mem, old(m.owner))
    ensures var e := Entry(old(m.mem), d, Pdx(va), Ptx(va));
            ok ==> OneEntry(old(m.mem), m.mem, m.owner, d2, Pdx(va), Ptx(va), Pte(true, g, e.flags))
                   && CopyOf(m.mem, e, Pte(true, g, e.flags))
    ensures ok ==> Paid(old(m.mem), old(m.free), m.mem, m.free, d2, {Pdx(va)}, 1)
    ensures !ok ==> OutOfMemory(old(m.mem), old(m.free), d2, Pdx(va))
  {
    PageDigits(va);
    var t, present := m.Walk(d, va, false);
    var pte := m.mem[t][Ptx(va)];
    var f, got := m.Kalloc();
    g := f;
    if !got {
      return false, g;
    }
    assert Is(old(m.owner), pte.frame, User(d, Pdx(va), Ptx(va)));
    ok := CopyInto(m, d2, va, f, pte, old(m.owner));
  }

  /** The rest of a round: fill the new frame, which was free in `o`, and map it. */
  method CopyInto(m: Machine, d2: nat, va: nat, f: nat, pte: Pte, ghost o: Owners) returns (ok: bool)
    requires m.Valid() && IsDir(m.owner, d2) && va < SHAREDBASE && Is(o, f, Free) && m.owner == o[f := Held]
    requires pte.present && pte.frame in m.owner && m.owner[pte.frame].User? && pte.frame in m.mem
    requires !Entry(m.mem, d2, Pdx(va), Ptx(va)).present
    modifies m
    ensures m.Valid() && IsDir(m.owner, d2) && Carved(o, m.owner, d2)
    ensures !ok ==> SameView(old(m.mem), m.mem, o)
    ensures ok ==> DataSame(old(m.mem), m.mem, o)
    ensures ok ==> OneEntry(old(m.mem), m.mem, m.owner, d2, Pdx(va), Ptx(va), Pte(true, f, pte.flags))
                   && CopyOf(m.mem, pte, Pte(true, f, pte.flags))
    ensures ok ==> Paid(old(m.mem), old(m.free), m.mem, m.free, d2, {Pdx(va)}, 0)
    ensures !ok ==> old(m.free) == [] && Pdx(va) !in Slots(old(m.mem), d2)
  {
    PageDigits(va);
    ghost var mem0 := m.mem;
    m.SetPage(f, m.mem[pte.frame]);
    ghost var mem1 := m.mem;
    SameSlots(mem0, mem1, d2);
    assert Entry(mem1, d2, Pdx(va), Ptx(va)) == Entry(mem0, d2, Pdx(va), Ptx(va));
    var r := m.MapPage(d2, va, f, pte.flags, true);
    if r.NoMemory? {
      m.Kfree(f);
      assert m.owner == o;
      SameViewStep(mem0, mem1, m.mem, o, o);
      return false;
    }
    CopyEffects(mem0, mem1, m.mem, o, m.owner, d2, va, f, pte);
    return true;
  }

  lemma CopyEffects(mem0: Mem, mem1: Mem, mem2: Mem, o: Owners, o2: Owners, d2: nat, va: nat, f: nat, pte: Pte)
    requires Is(o, f, Free) && pte.present && pte.frame in o && o[pte.frame].User? && pte.frame in mem0
    requires mem1 == mem0[f := mem0[pte.frame]] && DataSame(mem1, mem2, o[f := Held])
    requires SameView(mem0, mem1, o[f := Held])
    requires GrewTables(GivenTo(o[f := Held], d2, va, f, true), o2, d2)
    requires OneEntry(mem1, mem2, o2, d2, Pdx(va), Ptx(va), Pte(true, f, pte.flags))
    ensures Carved(o, o2, d2) && DataSame(mem0, mem2, o)
    ensures OneEntry(mem0, mem2, o2, d2, Pdx(va), Ptx(va), Pte(true, f, pte.flags))
    ensures CopyOf(mem2, pte, Pte(true, f, pte.flags))
  {
    SameDirs(o[f := Held], o2, d2, va, f, true);
    OneEntryAfter(mem0, mem1, mem2, o[f := Held], o2, d2, Pdx(va), Ptx(va), Pte(true, f, pte.flags));
  }

  /** The frames a copy takes: the directory, the kernel's page tables, the pages and their page tables. */
  ghost function CopyCost(ks: seq<Kmap>, n: nat): (c: nat) {
    1 + |KernelSlots(ks, |ks|)| + n + |SlotsOf(0, n)|
  }

  /** The first `n` pages are copied, and paid for since memory `memk` with free list `freek`. */
  ghost predicate CopiedSoFar(mem0: Mem, o0: Owners, memk: Mem, freek: seq<nat>, mem: Mem, free: seq<nat>, o: Owners,
                              d: nat, d2: nat, ks: seq<Kmap>, n: nat) {
    && Carved(o0, o, d2) && SameView(mem0, mem, o0) && Copied(mem, d, d2, n) && KernelHalf(mem, d2, ks)
    && Paid(memk, freek, mem, free, d2, SlotsOf(0, n), n)
  }

  /**
   copyuvm: the child maps private copies of the parent's first pages and the kernel half, and
   nothing else; every existing address space is untouched.  When memory runs out, the free
   frames and all other ownership are exactly what they were.  It succeeds exactly if there
   are enough free frames for the copy.
   */
  method CopyUvm(m: Machine, ks: seq<Kmap>, d: nat, sz: nat) returns (d2: nat, ok: bool)
    requires m.Valid() && IsDir(m.owner, d) && ValidKmap(ks) && sz <= SHAREDBASE
    requires AllPresent(m.mem, d, PagesFor(sz))
    modifies m
    ensures m.Valid() && SameView(old(m.mem), m.mem, old(m.owner))
    ensures ok <==> |old(m.free)| >= CopyCost(ks, PagesFor(sz))
    ensures !ok ==> m.owner == old(m.owner)
    ensures ok ==> Is(old(m.owner), d2, Free) && IsDir(m.owner, d2)
                   && Carved(old(m.owner), m.owner, d2) && Copied(m.mem, d, d2, PagesFor(sz))
                   && KernelHalf(m.mem, d2, ks)
  {
    d2, ok := SetupKvm(m, ks);
    if !ok {
      return;
    }
    ghost var memk, freek := m.mem, m.free;
    CarvedDirs(old(m.owner), m.owner, d2);
    PresentSame(old(m.mem), m.mem, old(m.owner), d, PagesFor(sz));
    CopiedNone(m.mem, d, d2, ks);
    KernelHalfOf(m.mem, d2, ks);
    UserSlotsNew(memk, d2, ks, PagesFor(sz));
    PaidNothing(m.mem, m.free, d2);
    ok := CopyPages(m, ks, d, d2, sz, old(m.mem), old(m.owner), PagesFor(sz));
    if ok {
      PaidFrames(memk, freek, m.mem, m.free, d2, SlotsOf(0, PagesFor(sz)), PagesFor(sz));
    } else {
      CarvedDirs(old(m.owner), m.owner, d2);
      ghost var mem1, o1 := m.mem, m.owner;
      FreeVm(m, d2);
      CarvedFreed(old(m.mem), old(m.free), old(m.owner), o1, m.owner, d2);
      SameViewStep(old(m.mem), mem1, m.mem, old(m.owner), m.owner);
    }
  }

  lemma KernelHalfOf(mem: Mem, d: nat, ks: seq<Kmap>)
    requires KernelView(mem, d, ks, |ks|)
    ensures KernelHalf(mem, d, ks)
  {
  }

  /** The kernel's page tables are none of those that user pages need. */
  lemma UserSlotsNew(mem: Mem, d: nat, ks: seq<Kmap>, n: nat)
    requires ValidKmap(ks) && Slots(mem, d) == KernelSlots(ks, |ks|) && n <= SHAREDPDX * ENTRIES
    ensures PageCost(mem, d, 0, n) == n + |SlotsOf(0, n)|
  {
    KernelSlotsHigh(ks, |ks|, |ks|);
    forall i | i in SlotsOf(0, n) ensures i !in Slots(mem, d) {
      assert InSlots(0, n, i);
    }
    assert SlotsOf(0, n) - Slots(mem, d) == SlotsOf(0, n);
  }

  /** The loop of copyuvm, over `total` pages. */
  method CopyPages(m: Machine, ghost ks: seq<Kmap>, d: nat, d2: nat, sz: nat, ghost mem0: Mem, ghost o0: Owners,
                   ghost total: nat) returns (ok: bool)
    requires m.Valid() && IsDir(m.owner, d2) && sz <= SHAREDBASE && total == PagesFor(sz)
    requires IsDir(o0, d) && Is(o0, d2, Free) && AllPresent(mem0, d, total)
    requires CopiedSoFar(mem0, o0, m.mem, m.free, m.mem, m.free, m.owner, d, d2, ks, 0)
    modifies m
    ensures m.Valid() && IsDir(m.owner, d2) && Carved(o0, m.owner, d2) && SameView(mem0, m.mem, o0)
    ensures ok ==> CopiedSoFar(mem0, o0, old(m.mem), old(m.free), m.mem, m.free, m.owner, d, d2, ks, total)
    ensures !ok ==> |old(m.free)| < PageCost(old(m.mem), d2, 0, total)
  {
    var i := 0;
    ghost var n := 0;
    while i < sz
      invariant m.Valid() && IsDir(m.owner, d2) && i == n * PGSIZE && n <= total
      invariant CopiedSoFar(mem0, o0, old(m.mem), old(m.free), m.mem, m.free, m.owner, d, d2, ks, n)
      decreases sz - i
    {
      BelowEnd(sz, i, n, total);
      ok, n := CopyRound(m, d, d2, i, n, mem0, o0, old(m.mem), old(m.free), total, ks);
      if !ok {
        return;
      }
      i := i + PGSIZE;
    }
    AllocEnd(sz, i, n);
    return true;
  }

  /** One round of that loop. */
  method CopyRound(m: Machine, d: nat, d2: nat, va: nat, ghost n: nat, ghost mem0: Mem, ghost o0: Owners,
                   ghost memk: Mem, ghost freek: seq<nat>, ghost total: nat, ghost ks: seq<Kmap>)
    returns (ok: bool, ghost n': nat)
    requires m.Valid() && IsDir(m.owner, d2) && va == n * PGSIZE && n < total <= SHAREDPDX * ENTRIES
    requires CopiedSoFar(mem0, o0, memk, freek, m.mem, m.free, m.owner, d, d2, ks, n)
    requires IsDir(o0, d) && Is(o0, d2, Free) && AllPresent(mem0, d, total)
    modifies m
    ensures m.Valid() && IsDir(m.owner, d2) && Carved(o0, m.owner, d2) && SameView(mem0, m.mem, o0) && n' == n + 1
    ensures ok ==> CopiedSoFar(mem0, o0, memk, freek, m.mem, m.free, m.owner, d, d2, ks, n')
    ensures !ok ==> |freek| < PageCost(memk, d2, 0, total)
  {
    PageDigits(va);
    SlotOfPage(va, n);
    ghost var mem1, free1, o1 := m.mem, m.free, m.owner;
    n' := n + 1;
    CarvedDirs(o0, o1, d2);
    PresentSame(mem0, mem1, o0, d, total);
    ghost var g;
    ok, g := CopyPage(m, d, d2, va);
    CarvedMore(o0, o1, m.owner, d2);
    CarvedDirs(o1, m.owner, d2);
    if ok {
      PageCopied(mem0, o0, memk, freek, mem1, free1, o1, m.mem, m.free, m.owner, d, d2, ks, n, n', va, g);
    } else {
      AllocShort(memk, freek, mem1, free1, d2, 0, n, total, Pdx(va));
      SameViewOn(mem0, mem1, m.mem, o0, o1, false);
    }
  }

  /** What one copied page adds to the pages before. */
  lemma PageCopied(mem0: Mem, o0: Owners, memk: Mem, freek: seq<nat>, mem1: Mem, free1: seq<nat>, o1: Owners,
                   mem2: Mem, free2: seq<nat>, o2: Owners, d: nat, d2: nat, ks: seq<Kmap>, n: nat, n': nat, va: nat,
                   g: nat)
    requires CopiedSoFar(mem0, o0, memk, freek, mem1, free1, o1, d, d2, ks, n) && n' == n + 1
    requires va == n * PGSIZE && n < SHAREDPDX * ENTRIES && d != d2
    requires IsDir(o0, d) && Is(o0, d2, Free) && IsDir(o1, d) && IsDir(o1, d2) && IsDir(o2, d) && IsDir(o2, d2)
    requires UsersOk(mem1, o1) && AllPresent(mem1, d, n') && DataSame(mem1, mem2, o1)
    requires Carved(o0, o2, d2) && (forall e :: IsDir(o0, e) ==> IsDir(o2, e) && e != d2)
    requires var e := Entry(mem1, d, Pdx(va), Ptx(va));
             && OneEntry(mem1, mem2, o2, d2, Pdx(va), Ptx(va), Pte(true, g, e.flags))
             && CopyOf(mem2, e, Pte(true, g, e.flags))
    requires Paid(mem1, free1, mem2, free2, d2, {Pdx(va)}, 1)
    ensures CopiedSoFar(mem0, o0, memk, freek, mem2, free2, o2, d, d2, ks, n')
  {
    PageDigits(va);
    SlotOfPage(va, n);
    var x := Pte(true, g, Entry(mem1, d, Pdx(va), Ptx(va)).flags);
    CopiedStep(mem1, mem2, o1, o2, d, d2, n, Pdx(va), Ptx(va), x);
    OneEntryOthers(mem1, mem2, o2, d2, Pdx(va), Ptx(va), x, o0);
    KernelHalfKept(mem1, mem2, o2, d2, ks, Pdx(va), Ptx(va), x);
    SameViewOn(mem0, mem1, mem2, o0, o0, true);
    PaidPage(memk, freek, mem1, free1, mem2, free2, d2, 0, n, Pdx(va));
  }

  lemma OneEntryOthers(mem: Mem, mem': Mem, o: Owners, d: nat, i: nat, j: nat, e: Pte, o0: Owners)
    requires OneEntry(mem, mem', o, d, i, j, e)
    requires forall k :: IsDir(o0, k) ==> IsDir(o, k) && k != d
    ensures SameView(mem, mem', o0)
  {
    forall k, i2, j2 | IsDir(o0, k) && 0 <= i2 < ENTRIES && 0 <= j2 < ENTRIES
      ensures Entry(mem', k, i2, j2) == Entry(mem, k, i2, j2)
    {
      assert IsDir(o, k);
    }
  }

  lemma SameViewOn(mem0: Mem, mem1: Mem, mem2: Mem, o0: Owners, o1: Owners, ok: bool)
    requires SameView(mem0, mem1, o0) && (ok ==> SameView(mem1, mem2, o0)) && (!ok ==> SameView(mem1, mem2, o1))
    requires forall e :: IsDir(o0, e) ==> IsDir(o1, e)
    ensures SameView(mem0, mem2, o0)
  {
    forall e, i, j | IsDir(o0, e) && 0 <= i < ENTRIES && 0 <= j < ENTRIES
      ensures Entry(mem2, e, i, j) == Entry(mem0, e, i, j)
    {
      assert IsDir(o1, e);
      assert Entry(mem2, e, i, j) == Entry(mem1, e, i, j) && Entry(mem1, e, i, j) == Entry(mem0, e, i, j);
    }
  }

  // ---------- growproc ----------

  /** Growing from `sz` to `sz'` reaches SHAREDBASE or takes more frames than are free. */
  ghost predicate TooMuch(mem: Mem, free: seq<nat>, d: nat, sz: nat, sz': nat) {
    sz' >= SHAREDBASE || |free| < PageCost(mem, d, PagesFor(sz), PagesFor(sz'))
  }

  /** The size after a growproc that succeeds: giving up more than there is wraps around and changes nothing. */
  function GrownSize(sz: nat, n: int): (r: nat) {
    if sz + n < 0 then sz else sz + n
  }

  /**
   growproc: growing adds zeroed pages of the process's own, or leaves every mapping as it was; it fails
   exactly at SHAREDBASE or if there are too few free frames.
   Shrinking frees exactly the pages cut off; it is reported as a failure exactly when the new size
   is zero, and then the pages are gone although the size is kept.
   */
  method GrowProc(m: Machine, d: nat, sz: nat, n: int) returns (r: int, sz': nat)
    requires m.Valid() && IsDir(m.owner, d) && 0 < sz < SHAREDBASE && -0x8000_0000 <= n < 0x8000_0000
    requires NonePresent(m.mem, d, PagesFor(sz), SHAREDPDX * ENTRIES)
    modifies m
    ensures m.Valid() && IsDir(m.owner, d) && r in {0, -1}
    ensures r == -1 ==> sz' == sz
    ensures r == 0 ==> sz' == GrownSize(sz, n)
    ensures n >= 0 && r == -1 ==> AgreeView(old(m.mem), m.mem, m.owner) && GrewTables(old(m.owner), m.owner, d)
    ensures n >= 0 ==> (r == -1 <==> n > 0 && TooMuch(old(m.mem), old(m.free), d, sz, sz + n))
    ensures n >= 0 && r == 0 ==> Grown(old(m.mem), m.mem, m.owner, d, PagesFor(sz), PagesFor(sz + n))
                                 && AllocOwners(old(m.owner), m.owner, m.mem, d, PagesFor(sz), PagesFor(sz + n))
    ensures n < 0 ==> (r == -1 <==> sz + n == 0)
    ensures n < 0 && sz + n >= 0 ==> Unmapped(old(m.mem), m.mem, m.owner, d, PagesFor(sz + n), PagesFor(sz))
    ensures n < 0 && sz + n >= 0 ==> FreedPages(old(m.owner), m.owner, d, PagesFor(sz + n), PagesFor(sz))
    ensures n < 0 && sz + n < 0 ==> m.mem == old(m.mem) && m.owner == old(m.owner)
  {
    var z := sz;
    if n > 0 {
      ghost var failed;
      z, failed := m.AllocUvm(d, sz, sz + n);
      if z == 0 {
        return -1, sz;
      }
    } else if n < 0 {
      z := m.DeallocUvm(d, sz, (sz + n) % U32);
      if z == 0 {
        return -1, sz;
      }
    }
    return 0, z;
  }

  /** Directory 1 maps one page, frame 3, at address 0 through the table in frame 2. */
  function OnePageMem(): (mem: Mem) {
    map[1 := ZeroPage()[0 := Pte(true, 2, PTE_W + PTE_U)],
        2 := ZeroPage()[0 := Pte(true, 3, PTE_W + PTE_U)],
        3 := ZeroPage()]
  }

  ghost function OnePageOwners(): (o: Owners) {
    map[1 := Dir, 2 := Table(1, 0), 3 := User(1, 0, 0)]
  }

  lemma OnePageEntries(i: int, j: int)
    requires 0 <= i < ENTRIES && 0 <= j < ENTRIES
    ensures Entry(OnePageMem(), 1, i, j) == if i == 0 && j == 0 then Pte(true, 3, PTE_W + PTE_U) else NOPTE
  {
  }

  lemma OnePageInv()
    ensures Inv(OnePageMem(), [], OnePageOwners()) && NonePresent(OnePageMem(), 1, 1, SHAREDPDX * ENTRIES)
  {
    var mem, o := OnePageMem(), OnePageOwners();
    forall i, j | 0 <= i < ENTRIES && 0 <= j < ENTRIES
      ensures Entry(mem, 1, i, j).present ==> i == 0 && j == 0
    {
      OnePageEntries(i, j);
    }
    OnePageEntries(0, 0);
    assert IsTableOf(mem, o, 2, 1, 0) && IsPageOf(mem, o, 3, 1, 0, 0);
  }

  /** A shrinking that reports failure and yet takes the process's only page away. */
  method ShrinkToNothing() returns (m: Machine, r: int, sz: nat)
    ensures Entry(OnePageMem(), 1, 0, 0).present
    ensures r == -1 && sz == PGSIZE && !Entry(m.mem, 1, 0, 0).present && Is(m.owner, 3, Free)
  {
    OnePageInv();
    OnePageEntries(0, 0);
    m := new Machine.Found(OnePageMem(), [], OnePageOwners());
    r, sz := GrowProc(m, 1, PGSIZE, -4096);
  }
}
