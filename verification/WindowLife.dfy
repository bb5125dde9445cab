/**
 How long a child's windows last.  Windows alias frames that belong to the parent, and nothing counts the
 references: freevm and deallocuvm of the parent (kernel/vm.c) free the frames while the child maps them.
 */
module WindowLife {
  import opened Numbers
  import opened Vm
  import opened MachineMemory
  import opened AddressSpace
  import opened SharedMemory
  import opened SharedWindow

  /** Page `v` of `d` maps a frame that is in use. */
  ghost predicate Backed(mem: Mem, o: Owners, d: nat, v: nat) {
    At(mem, d, v).present && At(mem, d, v).frame in o && !o[At(mem, d, v).frame].Free?
  }

  /** Page `p` of window `i` maps a frame that is in use. */
  ghost predicate PageBacked(mem: Mem, o: Owners, d: nat, c: Table, i: int, p: int) {
    0 <= i < SHAREDCOUNT && 0 <= p < Pages(c[i].size) ==> Backed(mem, o, d, Window(c, i) + p)
  }

  ghost predicate WindowsBacked(mem: Mem, o: Owners, d: nat, c: Table, n: int) {
    forall i, p :: 0 <= i < n ==> PageBacked(mem, o, d, c, i, p)
  }

  /** All regions lie in the parent's own memory. */
  ghost predicate OwnRegions(c: Table, n: int)
    requires 0 <= n <= SHAREDCOUNT
  {
    forall i :: 0 <= i < n ==> PageOf(c[i].memstart) + Pages(c[i].size) <= SHAREDBASE / PGSIZE
  }

  /** A page of a window is backed by the parent's page, and that frame belongs to the parent. */
  lemma WindowOwner(mem: Mem, free: seq<nat>, o: Owners, d: nat, pd: nat, c: Table, c': Table, n: int, i: nat, p: nat)
    returns (v: nat, u: nat)
    requires Inv(mem, free, o) && IsDir(o, pd) && Accessed(mem, d, pd, c, c', n) && OwnRegions(c, n)
    requires i < n && p < Pages(c[i].size)
    ensures v == Window(c, i) + p && u == PageOf(c[i].memstart) + p < SHAREDBASE / PGSIZE
    ensures SHAREDBASE / PGSIZE <= v < ENTRIES * ENTRIES && At(mem, d, v).present
    ensures Is(o, At(mem, d, v).frame, User(pd, u / ENTRIES, u % ENTRIES))
  {
    v, u := Window(c, i) + p, PageOf(c[i].memstart) + p;
    assert RegionDone(mem, d, pd, c, c', i);
    assert Aliased(mem, d, pd, Window(c, i), PageOf(c[i].memstart), p);
    WindowsRise(c, i + 1, n);
    assert Entry(mem, pd, u / ENTRIES, u % ENTRIES) == At(mem, pd, u);
  }

  /** While the parent keeps its pages, the windows are backed. */
  lemma WindowsLive(mem: Mem, free: seq<nat>, o: Owners, d: nat, pd: nat, c: Table, c': Table, n: int)
    requires Inv(mem, free, o) && IsDir(o, pd) && Accessed(mem, d, pd, c, c', n) && OwnRegions(c, n)
    ensures WindowsBacked(mem, o, d, c, n)
  {
    forall i, p | 0 <= i < n
      ensures PageBacked(mem, o, d, c, i, p)
    {
      if 0 <= p < Pages(c[i].size) {
        var v, u := WindowOwner(mem, free, o, d, pd, c, c', n, i, p);
      }
    }
  }

  lemma SameAt(mem: Mem, mem': Mem, o: Owners, d: nat, v: nat)
    requires SameView(mem, mem', o) && IsDir(o, d) && v < ENTRIES * ENTRIES
    ensures At(mem', d, v) == At(mem, d, v)
  {
  }

  /** A page with a frame of the parent `pd`, after freevm of directory `g`. */
  lemma PageFreed(mem: Mem, mem': Mem, o: Owners, o': Owners, d: nat, pd: nat, g: nat, v: nat, u: nat)
    requires v < ENTRIES * ENTRIES && At(mem, d, v).present
    requires Is(o, At(mem, d, v).frame, User(pd, u / ENTRIES, u % ENTRIES))
    requires IsDir(o, g) && FreedAll(o, o', g) && SameView(mem, mem', o') && IsDir(o, d) && g != d
    ensures Backed(mem', o', d, v) <==> g != pd
  {
    SameAt(mem, mem', o', d, v);
    var f := At(mem, d, v).frame;
    assert BelongsTo(o[f], f, g) <==> g == pd;
  }

  /**
   freevm of another address space `g` leaves all windows of the child backed exactly when `g` is not the
   parent's.  wait frees an exited parent's, and exec the one the parent had before.
   */
  lemma WindowsOutlive(mem: Mem, mem': Mem, free: seq<nat>, o: Owners, o': Owners, d: nat, pd: nat, g: nat,
                       c: Table, c': Table, n: int)
    requires Inv(mem, free, o) && IsDir(o, pd) && Accessed(mem, d, pd, c, c', n) && OwnRegions(c, n) && n > 0
    requires IsDir(o, g) && FreedAll(o, o', g) && SameView(mem, mem', o') && IsDir(o, d) && g != d
    ensures WindowsBacked(mem', o', d, c, n) <==> g != pd
  {
    forall i, p | 0 <= i < n && 0 <= p < Pages(c[i].size)
      ensures PageBacked(mem', o', d, c, i, p) <==> g != pd
    {
      var v, u := WindowOwner(mem, free, o, d, pd, c, c', n, i, p);
      PageFreed(mem, mem', o, o', d, pd, g, v, u);
    }
    assert PageBacked(mem', o', d, c, 0, 0) <==> g != pd;
  }

  /** The parent's page behind page `p` of window `i` is among pages `lo..hi`. */
  ghost predicate SourceIn(c: Table, i: int, p: int, lo: int, hi: int) {
    0 <= i < SHAREDCOUNT && 0 <= p < Pages(c[i].size) && lo <= PageOf(c[i].memstart) + p < hi
  }

  /** A page with a frame of the parent `pd`, after deallocuvm has cut pages `lo..hi` off directory `g`. */
  lemma PageCut(mem: Mem, mem': Mem, o: Owners, o': Owners, d: nat, pd: nat, g: nat, v: nat, u: nat, lo: int, hi: int)
    requires SHAREDBASE / PGSIZE <= v < ENTRIES * ENTRIES && At(mem, d, v).present
    requires Is(o, At(mem, d, v).frame, User(pd, u / ENTRIES, u % ENTRIES))
    requires FreedPages(o, o', g, lo, hi) && Unmapped(mem, mem', o', g, lo, hi) && IsDir(o, d)
    requires hi <= SHAREDBASE / PGSIZE
    ensures Backed(mem', o', d, v) <==> !(g == pd && lo <= u < hi)
  {
    assert v / ENTRIES * ENTRIES + v % ENTRIES == v && u / ENTRIES * ENTRIES + u % ENTRIES == u;
    assert At(mem', d, v) == Entry(mem', d, v / ENTRIES, v % ENTRIES);
  }

  /** The windows survive a shrinking exactly when no shared page is among those the parent gives up. */
  lemma WindowsOutliveShrink(mem: Mem, mem': Mem, free: seq<nat>, o: Owners, o': Owners, d: nat, pd: nat, g: nat,
                             lo: int, hi: int, c: Table, c': Table, n: int)
    requires Inv(mem, free, o) && IsDir(o, pd) && Accessed(mem, d, pd, c, c', n) && OwnRegions(c, n)
    requires FreedPages(o, o', g, lo, hi) && Unmapped(mem, mem', o', g, lo, hi) && IsDir(o, d)
    requires hi <= SHAREDBASE / PGSIZE
    ensures WindowsBacked(mem', o', d, c, n)
       <==> g != pd || forall i, p :: 0 <= i < n ==> !SourceIn(c, i, p, lo, hi)
  {
    forall i, p | 0 <= i < n
      ensures PageBacked(mem', o', d, c, i, p) <==> !(g == pd && SourceIn(c, i, p, lo, hi))
    {
      if 0 <= p < Pages(c[i].size) {
        var v, u := WindowOwner(mem, free, o, d, pd, c, c', n, i, p);
        PageCut(mem, mem', o, o', d, pd, g, v, u, lo, hi);
      }
    }
  }

  /** In the memory of the straddling region: once the parent is freed, the child maps a frame of the free list. */
  lemma DanglingWindow(mem': Mem, free': seq<nat>, o': Owners)
    requires Inv(mem', free', o') && FreedAll(StraddleOwners(), o', 1) && SameView(StraddleMem(), mem', o')
    ensures At(mem', 5, SHAREDBASE / PGSIZE).present && At(mem', 5, SHAREDBASE / PGSIZE).frame in free'
  {
    StraddleEntries(SHAREDPDX, 0);
    assert IsDir(o', 5);
    SameAt(StraddleMem(), mem', o', 5, SHAREDBASE / PGSIZE);
    assert Is(o', 3, Free);
  }
}
