/**
 Which bytes of a shared region the child really shares (kernel/vm.c, access_shared_memory): a window
 has PGROUNDUP(size) bytes, whatever the region's offset in its first page.
 */
module SharedWindow {
  import opened Numbers
  import opened Vm
  import opened MachineMemory
  import opened SharedMemory

  /** Byte `k` of the region lies at the same physical address in child and parent. */
  ghost predicate ByteShared(mem: Mem, d: nat, pd: nat, addr: nat, start: nat, k: int) {
    k >= 0 ==> PhysOf(mem, d, addr + k) == PhysOf(mem, pd, start + k)
  }

  ghost predicate ByteMapped(mem: Mem, pd: nat, start: nat, k: int) {
    k >= 0 ==> PhysOf(mem, pd, start + k).Physical?
  }

  ghost predicate WhollyShared(mem: Mem, d: nat, pd: nat, addr: nat, start: nat, size: int) {
    forall k :: 0 <= k < size ==> ByteShared(mem, d, pd, addr, start, k)
  }

  /** All bytes of the region are mapped in the parent, below SHAREDBASE. */
  ghost predicate RegionMapped(mem: Mem, pd: nat, start: nat, size: int) {
    start + size <= SHAREDBASE && forall k :: 0 <= k < size ==> ByteMapped(mem, pd, start, k)
  }

  /** The next region of the table starts in the page behind region `i`'s window contents. */
  ghost predicate Continued(c: Table, n: int, i: nat)
    requires i < n <= SHAREDCOUNT
  {
    i + 1 < n && PageOf(c[i + 1].memstart) == PageOf(c[i].memstart) + Pages(c[i].size)
  }

  ghost predicate InWindow(start: nat, size: int, k: int) {
    start % PGSIZE + k < Pages(size) * PGSIZE
  }

  lemma SpillPage(w: nat, start: nat, size: int, k: nat)
    requires 0 < size && k < size && !InWindow(start, size, k)
    ensures PageOf(w * PGSIZE + start % PGSIZE + k) == w + Pages(size)
    ensures PageOf(start + k) == PageOf(start) + Pages(size)
    ensures (w * PGSIZE + start % PGSIZE + k) % PGSIZE == (start + k) % PGSIZE
  {
    var p := (start % PGSIZE + k) / PGSIZE;
    BytePage(w, start, k, p);
  }

  lemma SameFrameSamePage(mem: Mem, free: seq<nat>, o: Owners, pd: nat, u: nat, v: nat)
    requires Inv(mem, free, o) && IsDir(o, pd) && u < SHAREDBASE / PGSIZE && v < SHAREDBASE / PGSIZE
    requires At(mem, pd, u).present && At(mem, pd, v).present
    ensures At(mem, pd, u).frame == At(mem, pd, v).frame <==> u == v
  {
    FramesPrivate(mem, free, o, pd, u / ENTRIES, u % ENTRIES, pd, v / ENTRIES, v % ENTRIES);
  }

  /** The situation in which a child has accessed the regions of table `c`, giving `c'`. */
  ghost predicate Accessed(mem: Mem, d: nat, pd: nat, c: Table, c': Table, n: int) {
    && Accessible(c, n) && Relocated(mem, d, pd, c, c', n)
    && Window(c, n) < TOPPAGE && NonePresent(mem, d, Window(c, n), TOPPAGE)
    && forall i :: 0 <= i < n ==> c[i].memstart < SHAREDBASE
  }

  /** The child's page `v` is the parent's page `u` exactly when it aliases a page `s` and that page is `u`. */
  lemma PageBehindWindow(mem: Mem, free: seq<nat>, o: Owners, d: nat, pd: nat, u: nat, v: nat, s: nat, next: bool)
    requires Inv(mem, free, o) && IsDir(o, pd) && u < SHAREDBASE / PGSIZE && At(mem, pd, u).present
    requires next ==> s < SHAREDBASE / PGSIZE && At(mem, d, v).present && At(mem, pd, s).present
                      && At(mem, d, v).frame == At(mem, pd, s).frame
    requires !next ==> !At(mem, d, v).present
    ensures At(mem, d, v).present && At(mem, d, v).frame == At(mem, pd, u).frame <==> next && s == u
  {
    if next {
      SameFrameSamePage(mem, free, o, pd, u, s);
    }
  }

  /** What the child has in the page `v` behind window `i`: the first page of the next region, or nothing. */
  lemma BehindWindow(mem: Mem, d: nat, pd: nat, c: Table, c': Table, n: int, i: nat) returns (v: nat, s: nat)
    requires Accessed(mem, d, pd, c, c', n) && i < n
    ensures v == Window(c, i) + Pages(c[i].size)
    ensures i + 1 < n ==> s == PageOf(c[i + 1].memstart) < SHAREDBASE / PGSIZE
                          && At(mem, d, v).present && At(mem, pd, s).present
                             && At(mem, d, v).frame == At(mem, pd, s).frame
    ensures i + 1 >= n ==> !At(mem, d, v).present
  {
    v, s := Window(c, i + 1), 0;
    if i + 1 < n {
      s := PageOf(c[i + 1].memstart);
      NextRegionPage(mem, d, pd, c, c', n, i + 1);
    } else {
      UnmappedAt(mem, d, Window(c, n), TOPPAGE, Window(c, n));
    }
  }

  lemma UnmappedAt(mem: Mem, d: nat, lo: int, hi: int, v: nat)
    requires NonePresent(mem, d, lo, hi) && lo <= v < hi <= ENTRIES * ENTRIES
    ensures !At(mem, d, v).present
  {
    assert v / ENTRIES * ENTRIES + v % ENTRIES == v;
  }

  lemma NextRegionPage(mem: Mem, d: nat, pd: nat, c: Table, c': Table, n: int, i: nat)
    requires Accessible(c, n) && Relocated(mem, d, pd, c, c', n) && i < n
    ensures At(mem, d, Window(c, i)).present && At(mem, pd, PageOf(c[i].memstart)).present
    ensures At(mem, d, Window(c, i)).frame == At(mem, pd, PageOf(c[i].memstart)).frame
  {
    assert RegionDone(mem, d, pd, c, c', i);
    assert Aliased(mem, d, pd, Window(c, i), PageOf(c[i].memstart), 0);
  }

  lemma SpillMapped(mem: Mem, pd: nat, start: nat, size: int, k: nat) returns (u: nat)
    requires RegionMapped(mem, pd, start, size) && 0 < size && k < size && !InWindow(start, size, k)
    ensures u == PageOf(start) + Pages(size) == PageOf(start + k)
    ensures u < SHAREDBASE / PGSIZE && At(mem, pd, u).present
  {
    SpillPage(0, start, size, k);
    u := PageOf(start + k);
    assert ByteMapped(mem, pd, start, k);
  }

  lemma SpillCore(mem: Mem, free: seq<nat>, o: Owners, d: nat, pd: nat, u: nat, v: nat, s: nat, next: bool,
                  base: nat, start: nat, k: nat)
    requires Inv(mem, free, o) && IsDir(o, pd) && u < SHAREDBASE / PGSIZE && At(mem, pd, u).present
    requires next ==> s < SHAREDBASE / PGSIZE && At(mem, d, v).present && At(mem, pd, s).present
                      && At(mem, d, v).frame == At(mem, pd, s).frame
    requires !next ==> !At(mem, d, v).present
    requires PageOf(base + k) == v && PageOf(start + k) == u && (base + k) % PGSIZE == (start + k) % PGSIZE
    ensures ByteShared(mem, d, pd, base, start, k) <==> next && s == u
  {
    PageBehindWindow(mem, free, o, d, pd, u, v, s, next);
    PhysSame(mem, d, pd, base + k, start + k);
  }

  lemma ContinuedAt(c: Table, n: int, i: nat, u: nat, s: nat)
    requires Accessible(c, n) && i < n && u == PageOf(c[i].memstart) + Pages(c[i].size)
    requires i + 1 < n ==> s == PageOf(c[i + 1].memstart)
    ensures Continued(c, n, i) <==> i + 1 < n && s == u
  {
  }

  lemma PhysSame(mem: Mem, d: nat, pd: nat, va: nat, vb: nat)
    requires va % PGSIZE == vb % PGSIZE && At(mem, pd, PageOf(vb)).present
    ensures PhysOf(mem, d, va) == PhysOf(mem, pd, vb)
       <==> At(mem, d, PageOf(va)).present && At(mem, d, PageOf(va)).frame == At(mem, pd, PageOf(vb)).frame
  {
  }

  /** A byte past the window is shared exactly when the page behind the window continues the region. */
  lemma SpilledByte(mem: Mem, free: seq<nat>, o: Owners, d: nat, pd: nat, c: Table, c': Table, n: int, i: nat,
                    addr: nat, k: nat)
    requires Inv(mem, free, o) && IsDir(o, pd) && Accessed(mem, d, pd, c, c', n) && i < n
    requires addr == Window(c, i) * PGSIZE + c[i].memstart % PGSIZE
    requires RegionMapped(mem, pd, c[i].memstart, c[i].size)
    requires k < c[i].size && !InWindow(c[i].memstart, c[i].size, k)
    ensures ByteShared(mem, d, pd, addr, c[i].memstart, k) <==> Continued(c, n, i)
  {
    var start, size, w := c[i].memstart, c[i].size, Window(c, i);
    SpillPage(w, start, size, k);
    var u := SpillMapped(mem, pd, start, size, k);
    var v, s := BehindWindow(mem, d, pd, c, c', n, i);
    SpillCore(mem, free, o, d, pd, u, v, s, i + 1 < n, addr, start, k);
    ContinuedAt(c, n, i, u, s);
  }

  lemma WindowByte(mem: Mem, d: nat, pd: nat, w: nat, start: nat, size: int, addr: nat, k: nat)
    requires AliasedTo(mem, d, pd, w, PageOf(start), Pages(size)) && size > 0 && InWindow(start, size, k)
    requires addr == w * PGSIZE + start % PGSIZE
    ensures ByteShared(mem, d, pd, addr, start, k)
  {
    ByteAliased(mem, d, pd, w, start, size, k);
  }

  /**
   access_shared_memory maps PGROUNDUP(size) bytes whatever the region's offset in its first page.  The
   whole region is shared exactly when its last byte is inside that window, or the next region of
   the table starts in the very page that was left out.
   */
  lemma WhollySharedIff(mem: Mem, free: seq<nat>, o: Owners, d: nat, pd: nat, c: Table, c': Table, n: int, i: nat)
    requires Inv(mem, free, o) && IsDir(o, pd) && Accessed(mem, d, pd, c, c', n) && i < n
    requires RegionMapped(mem, pd, c[i].memstart, c[i].size)
    ensures WhollyShared(mem, d, pd, c'[i].memstart, c[i].memstart, c[i].size)
       <==> InWindow(c[i].memstart, c[i].size, c[i].size - 1) || Continued(c, n, i)
  {
    var start, size := c[i].memstart, c[i].size;
    assert RegionDone(mem, d, pd, c, c', i);
    var addr := c'[i].memstart;
    forall k | 0 <= k < size
      ensures ByteShared(mem, d, pd, addr, start, k) <==> InWindow(start, size, k) || Continued(c, n, i)
    {
      if InWindow(start, size, k) {
        WindowByte(mem, d, pd, Window(c, i), start, size, addr, k);
      } else {
        SpilledByte(mem, free, o, d, pd, c, c', n, i, addr, k);
      }
    }
    assert ByteShared(mem, d, pd, addr, start, size - 1) ==> InWindow(start, size, size - 1) || Continued(c, n, i);
  }

  /** What access_shared_memory's success means for a child that had nothing mapped from SHAREDBASE on. */
  lemma AccessedAfter(mem0: Mem, mem: Mem, o: Owners, d: nat, pd: nat, c: Table, c': Table, n: int)
    requires IsDir(o, d) && Accessible(c, n) && NonePresent(mem0, d, SHAREDBASE / PGSIZE, TOPPAGE)
    requires Within(mem0, mem, o, d, SHAREDBASE / PGSIZE, Window(c, n)) && Relocated(mem, d, pd, c, c', n)
    requires Window(c, n) < TOPPAGE && forall i :: 0 <= i < n ==> c[i].memstart < SHAREDBASE
    ensures Accessed(mem, d, pd, c, c', n)
  {
    WithinNone(mem0, mem, o, d, SHAREDBASE / PGSIZE, Window(c, n), TOPPAGE);
  }

  /** Bytes of the only region that lie past its window fault in the child. */
  lemma LoneRegion(mem: Mem, d: nat, pd: nat, c: Table, c': Table, k: nat)
    requires Accessed(mem, d, pd, c, c', 1) && k < c[0].size && !InWindow(c[0].memstart, c[0].size, k)
    ensures PhysOf(mem, d, c'[0].memstart + k).Faults?
  {
    assert RegionDone(mem, d, pd, c, c', 0);
    SpillPage(Window(c, 0), c[0].memstart, c[0].size, k);
    var v, s := BehindWindow(mem, d, pd, c, c', 1, 0);
  }

  /** A parent (directory 1) with pages 0 and 1 mapped, and its child (directory 5) with the window of one page. */
  ghost function StraddleMem(): (mem: Mem) {
    map[1 := ZeroPage()[0 := Pte(true, 2, 6)], 2 := ZeroPage()[0 := Pte(true, 3, 6)][1 := Pte(true, 4, 6)],
        3 := ZeroPage(), 4 := ZeroPage(),
        5 := ZeroPage()[SHAREDPDX := Pte(true, 6, 6)], 6 := ZeroPage()[0 := Pte(true, 3, 6)]]
  }

  ghost function StraddleOwners(): (o: Owners) {
    map[1 := Dir, 2 := Table(1, 0), 3 := User(1, 0, 0), 4 := User(1, 0, 1), 5 := Dir, 6 := Table(5, SHAREDPDX)]
  }

  lemma StraddleEntries(i: int, j: int)
    requires 0 <= i < ENTRIES && 0 <= j < ENTRIES
    ensures Entry(StraddleMem(), 1, i, j)
         == if i == 0 && j == 0 then Pte(true, 3, 6) else if i == 0 && j == 1 then Pte(true, 4, 6) else NOPTE
    ensures Entry(StraddleMem(), 5, i, j) == if i == SHAREDPDX && j == 0 then Pte(true, 3, 6) else NOPTE
  {
  }

  lemma StraddleTables()
    ensures TablesOk(StraddleMem(), StraddleOwners())
  {
    var mem, o := StraddleMem(), StraddleOwners();
    assert IsTableOf(mem, o, 2, 1, 0) && IsTableOf(mem, o, 6, 5, SHAREDPDX);
  }

  lemma StraddleUsers()
    ensures UsersOk(StraddleMem(), StraddleOwners())
  {
    var mem, o := StraddleMem(), StraddleOwners();
    forall d, i, j | IsDir(o, d) && 0 <= i < SHAREDPDX && 0 <= j < ENTRIES && Entry(mem, d, i, j).present
      ensures Is(o, Entry(mem, d, i, j).frame, User(d, i, j))
    {
      StraddleEntries(i, j);
    }
    StraddleEntries(0, 0);
    StraddleEntries(0, 1);
    assert IsPageOf(mem, o, 3, 1, 0, 0) && IsPageOf(mem, o, 4, 1, 0, 1);
  }

  /** A table with one region of eight bytes, at `start`. */
  ghost function OneRegion(start: nat): (t: Table) {
    seq(SHAREDCOUNT, i => if i == 0 then Shared("x", start, 8) else Shared("", 0, 0))
  }

  lemma StraddleAccessed()
    ensures Accessed(StraddleMem(), 5, 1, OneRegion(4092), OneRegion(SHAREDBASE + 4092), 1)
  {
    var mem, c, c' := StraddleMem(), OneRegion(4092), OneRegion(SHAREDBASE + 4092);
    assert Window(c, 1) == Window(c, 0) + 1;
    StraddleEntries(SHAREDPDX, 0);
    StraddleEntries(0, 0);
    assert RegionDone(mem, 5, 1, c, c', 0);
    forall i, j | 0 <= i < ENTRIES && 0 <= j < ENTRIES && Window(c, 1) <= i * ENTRIES + j < TOPPAGE
      ensures !Entry(mem, 5, i, j).present
    {
      StraddleEntries(i, j);
    }
  }

  /**
   A shared region need not be shared entirely: the parent shares eight mapped bytes at 4092, the
   child's access succeeds, and the child's bytes 4 to 7 fault although the first four are shared.
   */
  lemma StraddlingRegion(k: nat)
    requires k < 8
    ensures Inv(StraddleMem(), [], StraddleOwners())
    ensures Accessed(StraddleMem(), 5, 1, OneRegion(4092), OneRegion(SHAREDBASE + 4092), 1)
    ensures PhysOf(StraddleMem(), 1, 4092 + k).Physical?
    ensures ByteShared(StraddleMem(), 5, 1, SHAREDBASE + 4092, 4092, k) <==> k < 4
    ensures k >= 4 ==> PhysOf(StraddleMem(), 5, SHAREDBASE + 4092 + k).Faults?
  {
    StraddleTables();
    StraddleUsers();
    StraddleAccessed();
    StraddleEntries(0, PageOf(4092 + k));
    if k < 4 {
      StraddleEntries(SHAREDPDX, 0);
    } else {
      LoneRegion(StraddleMem(), 5, 1, OneRegion(4092), OneRegion(SHAREDBASE + 4092), k);
    }
  }
}
