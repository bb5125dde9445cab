/**
 Memory shared between parent and child: share_data and get_data (kernel/sysfile.c), the table copy
 in fork (kernel/proc.c) and access_shared_memory (kernel/vm.c).
 */
module SharedMemory {
  import opened Numbers
  import opened Vm
  import opened MachineMemory

  const SHAREDCOUNT: nat := 10
  const SHAREDNAME: nat := 10

  /** One slot of a process's table: `size` is 0 while the slot is unused. */
  datatype Shared = Shared(name: string, memstart: nat, size: int)

  type Table = t: seq<Shared> | |t| == SHAREDCOUNT witness seq(SHAREDCOUNT, _ => Shared("", 0, 0))

  /** strncpy and strncmp look at the first SHAREDNAME characters only. */
  function Key(name: string): (k: string) {
    if |name| <= SHAREDNAME then name else name[..SHAREDNAME]
  }

  /** What strncmp sees at position `k`: the terminator behind the last character. */
  function CharAt(name: string, k: nat): (c: char) {
    if k < |name| then name[k] else '\0'
  }

  /** Two names are one exactly if strncmp finds no difference in their first SHAREDNAME characters. */
  lemma SameKeyIff(a: string, b: string)
    requires '\0' !in a && '\0' !in b
    ensures Key(a) == Key(b) <==> forall k :: 0 <= k < SHAREDNAME ==> CharAt(a, k) == CharAt(b, k)
  {
    if forall k :: 0 <= k < SHAREDNAME ==> CharAt(a, k) == CharAt(b, k) {
      assert |a| < SHAREDNAME ==> CharAt(b, |a|) == '\0';
      assert |b| < SHAREDNAME ==> CharAt(a, |b|) == '\0';
      assert |Key(a)| == |Key(b)|;
      forall k | 0 <= k < |Key(a)| ensures Key(a)[k] == Key(b)[k] {
        assert CharAt(a, k) == CharAt(b, k);
      }
    }
    if Key(a) == Key(b) {
      forall k | 0 <= k < SHAREDNAME ensures CharAt(a, k) == CharAt(b, k) {
        if k < |Key(a)| {
          assert Key(a)[k] == Key(b)[k];
        }
      }
    }
  }

  // ---------- share_data ----------

  /** A system call argument: `Unreadable` when it or the string behind it is not in the address space. */
  datatype Arg<T> = Unreadable | Arg(value: T)

  /** argptr accepts a pointer to four bytes below the process's size. */
  predicate PointerOk(a: Arg<nat>, sz: nat) {
    a.Arg? && a.value < sz && a.value + 4 <= sz
  }

  /** Exactly then the integer behind the pointer lies inside the process. */
  lemma PointerOkIff(a: Arg<nat>, sz: nat)
    ensures PointerOk(a, sz) <==> a.Arg? && forall k :: a.value <= k < a.value + 4 ==> Inside(k, sz)
  {
    if a.Arg? {
      assert Inside(a.value + 3, sz) <==> a.value + 3 < sz;
    }
  }

  predicate Inside(va: nat, sz: nat) {
    va < sz
  }

  /** One call of share_data by a process of size `sz`. */
  datatype ShareCall = ShareCall(name: Arg<string>, start: Arg<nat>, size: Arg<int>, sz: nat)

  predicate Readable(c: ShareCall) {
    c.name.Arg? && PointerOk(c.start, c.sz) && c.size.Arg?
  }

  /** What share_data returns for readable arguments: a slot number, or the reason for refusing. */
  ghost predicate ShareResult(t: Table, name: string, r: int) {
    && -3 <= r < SHAREDCOUNT && r != -1
    && (r >= 0 ==> t[r].size == 0 && NotBefore(t, name, r))
    && (r == -2 ==>
          exists i :: 0 <= i < SHAREDCOUNT && t[i].size != 0 && t[i].name == Key(name) && NotBefore(t, name, i))
    && (r == -3 ==> NotBefore(t, name, SHAREDCOUNT))
  }

  /** The first `i` slots are in use under other names. */
  ghost predicate NotBefore(t: Table, name: string, i: int)
    requires 0 <= i <= SHAREDCOUNT
  {
    forall k :: 0 <= k < i ==> t[k].size != 0 && t[k].name != Key(name)
  }

  /** Call `c` turns the table `t` into `t'` and returns `r`. */
  ghost predicate Shares(t: Table, c: ShareCall, r: int, t': Table) {
    && (r == -1 <==> !Readable(c))
    && (Readable(c) ==> ShareResult(t, c.name.value, r))
    && t' == if r >= 0 && Readable(c) then t[r := Shared(Key(c.name.value), c.start.value, c.size.value)] else t
  }

  /** The scans of sys_share_data and sys_get_data over one process's table, and fork's copy into it. */
  class SharedTable {
    var shared: Table

    method ShareData(c: ShareCall) returns (r: int)
      modifies this
      ensures Shares(old(shared), c, r, shared)
    {
      if !c.name.Arg? || !PointerOk(c.start, c.sz) || !c.size.Arg? {  // argstr, argptr, argint
        return -1;
      }
      var i := 0;
      while i < SHAREDCOUNT
        invariant 0 <= i <= SHAREDCOUNT && shared == old(shared) && NotBefore(shared, c.name.value, i)
      {
        if shared[i].size == 0 {
          shared := shared[i := Shared(Key(c.name.value), c.start.value, c.size.value)];
          return i;
        }
        if Key(c.name.value) == shared[i].name {
          return -2;
        }
        i := i + 1;
      }
      return -3;
    }

    /** get_data: `addr` is what is stored through the second argument `out`. */
    method GetData(name: Arg<string>, out: Arg<nat>, sz: nat) returns (r: int, addr: nat)
      ensures r in {0, -1, -2}
      ensures r == -1 <==> name.Unreadable? || !PointerOk(out, sz)
      ensures r != -1 ==> (r == 0 <==> exists i :: 0 <= i < SHAREDCOUNT && FoundAt(shared, name.value, i))
      ensures r == 0 ==>
                exists i :: 0 <= i < SHAREDCOUNT && FoundAt(shared, name.value, i) && addr == shared[i].memstart
    {
      if name.Unreadable? || !PointerOk(out, sz) {
        return -1, 0;
      }
      var i := 0;
      while i < SHAREDCOUNT
        invariant 0 <= i <= SHAREDCOUNT && forall k :: 0 <= k < i ==> shared[k].name != Key(name.value)
      {
        if Key(name.value) == shared[i].name {
          assert FoundAt(shared, name.value, i);
          return 0, shared[i].memstart;
        }
        i := i + 1;
      }
      return -2, 0;
    }

    /** fork: copy the parent's slots up to its first unused one. */
    method CopyFrom(parent: SharedTable)
      requires parent != this
      modifies this
      ensures Forked(parent.shared, old(shared), shared)
    {
      var i := 0;
      while i < SHAREDCOUNT
        invariant 0 <= i <= SHAREDCOUNT && (forall k :: 0 <= k < i ==> parent.shared[k].size != 0)
        invariant forall k :: 0 <= k < SHAREDCOUNT ==> shared[k] == if k < i then parent.shared[k] else old(shared)[k]
      {
        if parent.shared[i].size == 0 {
          break;
        }
        shared := shared[i := parent.shared[i]];
        i := i + 1;
      }
      assert InUse(parent.shared, i);
    }
  }

  /** Slot `i` is the first one carrying the name. */
  ghost predicate FoundAt(t: Table, name: string, i: int)
    requires 0 <= i < SHAREDCOUNT
  {
    t[i].name == Key(name) && forall k :: 0 <= k < i ==> t[k].name != Key(name)
  }

  /** Exactly the first `n` slots count: the table ends at its first unused slot. */
  ghost predicate InUse(t: Table, n: int) {
    0 <= n <= SHAREDCOUNT && (forall k :: 0 <= k < n ==> t[k].size != 0) && (n < SHAREDCOUNT ==> t[n].size == 0)
  }

  ghost predicate Forked(parent: Table, child: Table, child': Table) {
    exists n :: InUse(parent, n)
      && forall k :: 0 <= k < SHAREDCOUNT ==> child'[k] == if k < n then parent[k] else child[k]
  }

  // ---------- windows ----------

  function Pages(size: int): (n: nat) {
    if size <= 0 then 0 else PagesFor(size)
  }

  /** The page number at which the i-th window starts: windows follow each other from SHAREDBASE. */
  ghost function Window(t: seq<Shared>, i: nat): (w: nat)
    requires i <= |t|
    ensures SHAREDBASE / PGSIZE <= w
  {
    if i == 0 then SHAREDBASE / PGSIZE else Window(t, i - 1) + Pages(t[i - 1].size)
  }

  /** The flat view by page number. */
  function At(mem: Mem, d: nat, v: nat): (e: Pte) {
    Entry(mem, d, v / ENTRIES, v % ENTRIES)
  }

  /** Page `w + p` of the child is the frame that page `s + p` of the parent is. */
  ghost predicate Aliased(mem: Mem, d: nat, pd: nat, w: nat, s: nat, p: int) {
    p >= 0 ==>
      && At(mem, d, w + p).present && At(mem, pd, s + p).present
      && At(mem, d, w + p).frame == At(mem, pd, s + p).frame
  }

  ghost predicate AliasedTo(mem: Mem, d: nat, pd: nat, w: nat, s: nat, n: int) {
    forall p :: 0 <= p < n ==> Aliased(mem, d, pd, w, s, p)
  }

  /** Windows 0..n of the child alias the regions of table `t`; `t'` has them relocated. */
  ghost predicate Relocated(mem: Mem, d: nat, pd: nat, t: Table, t': Table, n: int)
    requires 0 <= n <= SHAREDCOUNT
  {
    && (forall i :: 0 <= i < n ==> RegionDone(mem, d, pd, t, t', i))
    && (forall i :: n <= i < SHAREDCOUNT ==> t'[i] == t[i])
  }

  ghost predicate RegionDone(mem: Mem, d: nat, pd: nat, t: Table, t': Table, i: int)
    requires 0 <= i < SHAREDCOUNT
  {
    && AliasedTo(mem, d, pd, Window(t, i), PageOf(t[i].memstart), Pages(t[i].size))
    && t'[i] == t[i].(memstart := Window(t, i) * PGSIZE + t[i].memstart % PGSIZE)
  }

  /** Only pages `lo..hi` of `d` may have changed. */
  ghost predicate Within(mem: Mem, mem': Mem, o: Owners, d: nat, lo: int, hi: int) {
    forall e, i, j {:trigger Entry(mem', e, i, j)} ::
      IsDir(o, e) && 0 <= i < ENTRIES && 0 <= j < ENTRIES && !(e == d && lo <= i * ENTRIES + j < hi) ==>
        Entry(mem', e, i, j) == Entry(mem, e, i, j)
  }

  const TOPPAGE: nat := KERNBASE / PGSIZE

  lemma WithinAt(mem: Mem, mem': Mem, o: Owners, d: nat, lo: int, hi: int, e: nat, v: nat)
    requires Within(mem, mem', o, d, lo, hi) && IsDir(o, e) && v < ENTRIES * ENTRIES
    requires e != d || v < lo || hi <= v
    ensures At(mem', e, v) == At(mem, e, v)
  {
    assert v / ENTRIES * ENTRIES + v % ENTRIES == v;
  }

  lemma WithinNone(mem: Mem, mem': Mem, o: Owners, d: nat, lo: int, hi: int, top: int)
    requires Within(mem, mem', o, d, lo, hi) && IsDir(o, d) && NonePresent(mem, d, lo, top) && lo <= hi
    ensures NonePresent(mem', d, hi, top)
  {
    forall i, j | 0 <= i < ENTRIES && 0 <= j < ENTRIES && hi <= i * ENTRIES + j < top
      ensures !Entry(mem', d, i, j).present
    {
      assert Entry(mem', d, i, j) == Entry(mem, d, i, j);
    }
  }

  lemma WithinMore(mem: Mem, mem1: Mem, mem2: Mem, o1: Owners, o2: Owners, d: nat, lo: int, mid: int, hi: int)
    requires Within(mem, mem1, o1, d, lo, mid) && Within(mem1, mem2, o2, d, mid, hi) && lo <= mid <= hi
    requires forall e :: IsDir(o1, e) <==> IsDir(o2, e)
    ensures Within(mem, mem2, o2, d, lo, hi)
  {
    forall e, i, j | IsDir(o2, e) && 0 <= i < ENTRIES && 0 <= j < ENTRIES && !(e == d && lo <= i * ENTRIES + j < hi)
      ensures Entry(mem2, e, i, j) == Entry(mem, e, i, j)
    {
      assert IsDir(o1, e) && Entry(mem2, e, i, j) == Entry(mem1, e, i, j);
    }
  }

  lemma MappedWithin(mem: Mem, mem': Mem, o: Owners, d: nat, lo: int, hi: int, pf: int, flags: nat)
    requires Mapped(mem, mem', o, d, lo, hi, pf, flags)
    ensures Within(mem, mem', o, d, lo, hi)
  {
  }

  /** Mapping one more page of a region keeps the earlier ones aliased and aliases the new one. */
  lemma AliasStep(mem1: Mem, mem2: Mem, o: Owners, d: nat, pd: nat, w: nat, s: nat, k: nat, pf: nat, flags: nat)
    requires IsDir(o, d) && IsDir(o, pd) && d != pd
    requires w + k < ENTRIES * ENTRIES && s + k < ENTRIES * ENTRIES
    requires AliasedTo(mem1, d, pd, w, s, k) && Mapped(mem1, mem2, o, d, w + k, w + k + 1, pf, flags)
    requires At(mem1, pd, s + k).present && At(mem1, pd, s + k).frame == pf
    ensures AliasedTo(mem2, d, pd, w, s, k + 1)
  {
    MappedWithin(mem1, mem2, o, d, w + k, w + k + 1, pf, flags);
    forall p | 0 <= p < k + 1
      ensures Aliased(mem2, d, pd, w, s, p)
    {
      WithinAt(mem1, mem2, o, d, w + k, w + k + 1, pd, s + p);
      if p < k {
        assert Aliased(mem1, d, pd, w, s, p);
        WithinAt(mem1, mem2, o, d, w + k, w + k + 1, d, w + p);
      } else {
        var v := w + k;
        assert v / ENTRIES * ENTRIES + v % ENTRIES == v;
        assert IsPte(Entry(mem2, d, v / ENTRIES, v % ENTRIES), pf, flags);
      }
    }
  }

  lemma AliasKept(mem1: Mem, mem2: Mem, o: Owners, d: nat, pd: nat, w: nat, s: nat, n: nat, lo: int, hi: int)
    requires IsDir(o, d) && IsDir(o, pd) && d != pd
    requires w + n <= lo && w + n <= ENTRIES * ENTRIES && s + n <= ENTRIES * ENTRIES
    requires AliasedTo(mem1, d, pd, w, s, n) && Within(mem1, mem2, o, d, lo, hi)
    ensures AliasedTo(mem2, d, pd, w, s, n)
  {
    forall p | 0 <= p < n
      ensures Aliased(mem2, d, pd, w, s, p)
    {
      assert Aliased(mem1, d, pd, w, s, p);
      WithinAt(mem1, mem2, o, d, lo, hi, pd, s + p);
      WithinAt(mem1, mem2, o, d, lo, hi, d, w + p);
    }
  }

  // ---------- access_shared_memory ----------

  /** How aliasing pages ends: done, at a page the parent has not mapped, or because mappages failed. */
  datatype Alias = Done | NoSource | MapFailed

  /** One page of a region: look the parent's page up and map its frame into the child, as page `v`. */
  method AliasPage(m: Machine, d: nat, pd: nat, vpage: nat, src: nat, ghost v: nat, ghost u: nat) returns (r: Alias)
    requires m.Valid() && IsDir(m.owner, d) && IsDir(m.owner, pd) && d != pd
    requires vpage == v * PGSIZE && SHAREDBASE <= vpage < KERNBASE && src < U32 && u == PageOf(src)
    requires NonePresent(m.mem, d, v, TOPPAGE)
    modifies m
    ensures m.Valid() && GrewTables(old(m.owner), m.owner, d) && IsDir(m.owner, d) && IsDir(m.owner, pd)
    ensures Within(old(m.mem), m.mem, m.owner, d, v, v + 1)
    ensures r.NoSource? <==> !At(old(m.mem), pd, u).present
    ensures r.NoSource? ==> m.mem == old(m.mem) && m.free == old(m.free)
    ensures r.MapFailed? ==> NoTableFor(old(m.mem), old(m.free), m.mem, m.free, d, v)
    ensures r.Done? ==> Paid(old(m.mem), old(m.free), m.mem, m.free, d, {v / ENTRIES}, 0)
    ensures r.Done? ==> Mapped(old(m.mem), m.mem, m.owner, d, v, v + 1, At(old(m.mem), pd, u).frame, PTE_W + PTE_U)
  {
    PageDigits(src);
    DigitsOf(src);
    var t, found := m.Walk(pd, src, false);
    if !found {
      return NoSource;
    }
    var pte := m.mem[t][Ptx(src)];
    assert pte == At(m.mem, pd, u);
    if !pte.present {
      return NoSource;
    }
    var ok := AliasFrame(m, d, vpage, pte.frame, v);
    return if ok then Done else MapFailed;
  }

  /** There is no frame for the page table that page `v` needs. */
  ghost predicate NoTableFor(mem: Mem, free: seq<nat>, mem': Mem, free': seq<nat>, d: nat, v: nat) {
    Paid(mem, free, mem', free', d, {}, 0) && free' == [] && v / ENTRIES !in Slots(mem', d)
  }

  /** mappages of a single page of the window. */
  method AliasFrame(m: Machine, d: nat, vpage: nat, frame: nat, ghost v: nat) returns (ok: bool)
    requires m.Valid() && IsDir(m.owner, d) && vpage == v * PGSIZE && SHAREDBASE <= vpage < KERNBASE
    requires NonePresent(m.mem, d, v, TOPPAGE)
    modifies m
    ensures m.Valid() && GrewTables(old(m.owner), m.owner, d) && IsDir(m.owner, d)
    ensures Within(old(m.mem), m.mem, m.owner, d, v, v + 1)
    ensures ok ==> Mapped(old(m.mem), m.mem, m.owner, d, v, v + 1, frame, PTE_W + PTE_U)
    ensures ok ==> Paid(old(m.mem), old(m.free), m.mem, m.free, d, {v / ENTRIES}, 0)
    ensures !ok ==> NoTableFor(old(m.mem), old(m.free), m.mem, m.free, d, v)
  {
    ghost var k;
    var x;
    OneSlot(v);
    PageEnds(vpage, v);
    NothingGiven(m.owner, d, v, v + 1, frame);
    x, k := m.MapPages(d, vpage, PGSIZE, frame * PGSIZE, PTE_W + PTE_U);
    NothingGiven(old(m.owner), d, v, k, frame);
    MappedWithin(old(m.mem), m.mem, m.owner, d, v, k, frame, PTE_W + PTE_U);
    WithinWider(old(m.mem), m.mem, m.owner, d, v, k, v + 1);
    NotAgain(old(m.mem), d, v, k);
    return x.Entered?;
  }

  lemma PageEnds(vpage: nat, v: nat)
    requires vpage == v * PGSIZE && SHAREDBASE <= vpage < KERNBASE
    ensures PageOf(vpage) == v && PageOf(vpage + PGSIZE - 1) == v && SHAREDBASE / PGSIZE <= v < TOPPAGE
  {
  }

  lemma NotAgain(mem: Mem, d: nat, v: nat, k: int)
    requires NonePresent(mem, d, v, TOPPAGE) && v <= k <= v + 1 && v < TOPPAGE
    ensures k == v ==> NonePresent(mem, d, k, k + 1)
  {
  }

  lemma OneSlot(v: nat)
    requires v < ENTRIES * ENTRIES
    ensures SlotsOf(v, v) == {} && SlotsOf(v, v + 1) == {v / ENTRIES}
  {
    SlotsOfStep(v, v);
  }

  lemma DigitsOf(va: nat)
    requires va < U32
    ensures Pdx(va) == PageOf(va) / ENTRIES && Ptx(va) == PageOf(va) % ENTRIES
  {
  }

  lemma WithinWider(mem: Mem, mem': Mem, o: Owners, d: nat, lo: int, k: int, hi: int)
    requires Within(mem, mem', o, d, lo, k) && k <= hi
    ensures Within(mem, mem', o, d, lo, hi)
  {
  }

  /** Aliasing `total` pages from page `w` on came as far as `v` pages, and ended with `r`. */
  ghost predicate AliasEnd(mem0: Mem, free0: seq<nat>, mem: Mem, free: seq<nat>, d: nat, pd: nat, w: nat, s: nat,
                           v: int, total: nat, r: Alias) {
    && 0 <= v <= total && AliasedTo(mem, d, pd, w, s, v) && Paid(mem0, free0, mem, free, d, SlotsOf(w, w + v), 0)
    && (v == total <==> r.Done?)
    && (r.NoSource? ==> !At(mem0, pd, s + v).present)
    && (r.MapFailed? ==> free == [] && (w + v) / ENTRIES !in Slots(mem, d))
  }

  /** The inner loop: alias the pages of one region into its window; `v` pages are aliased. */
  method AliasRegion(m: Machine, d: nat, pd: nat, va: nat, memstart: nat, size: int, ghost w: nat, ghost s: nat)
    returns (r: Alias, ghost v: int)
    requires m.Valid() && IsDir(m.owner, d) && IsDir(m.owner, pd) && d != pd
    requires 0 < size && va == w * PGSIZE && SHAREDBASE <= va && va + Pages(size) * PGSIZE <= KERNBASE
    requires memstart + Pages(size) * PGSIZE <= U32 && s == PageOf(memstart)
    requires NonePresent(m.mem, d, w, TOPPAGE)
    modifies m
    ensures m.Valid() && GrewTables(old(m.owner), m.owner, d) && IsDir(m.owner, d) && IsDir(m.owner, pd)
    ensures Within(old(m.mem), m.mem, m.owner, d, w, w + Pages(size))
    ensures AliasEnd(old(m.mem), old(m.free), m.mem, m.free, d, pd, w, s, v, Pages(size), r)
  {
    var vpage, src := RoundUp(va), memstart;
    var i := 0;
    v := 0;
    PaidNothing(m.mem, m.free, d);
    while i < RoundUp(size)
      invariant m.Valid() && GrewTables(old(m.owner), m.owner, d) && IsDir(m.owner, d) && IsDir(m.owner, pd)
      invariant i == v * PGSIZE && vpage == va + i && src == memstart + i && 0 <= v <= Pages(size)
      invariant AliasEnd(old(m.mem), old(m.free), m.mem, m.free, d, pd, w, s, v, v, Done)
      invariant Within(old(m.mem), m.mem, m.owner, d, w, w + v)
      decreases RoundUp(size) - i
    {
      ghost var k, q := v, w + v;
      RegionPages(va, memstart, size, w, k, q, vpage, src);
      r, v := AliasRound(m, d, pd, vpage, src, w, s, k, q, old(m.mem), old(m.free), old(m.owner));
      if !r.Done? {
        WithinWider(old(m.mem), m.mem, m.owner, d, w, q + 1, w + Pages(size));
        StoppedShort(old(m.mem), old(m.free), m.mem, m.free, d, pd, w, s, v, k + 1, Pages(size), r);
        return;
      }
      vpage := vpage + PGSIZE;
      src := src + PGSIZE;
      i := i + PGSIZE;
    }
    r := Done;
  }

  lemma StoppedShort(mem0: Mem, free0: seq<nat>, mem: Mem, free: seq<nat>, d: nat, pd: nat, w: nat, s: nat,
                     v: int, n: nat, total: nat, r: Alias)
    requires AliasEnd(mem0, free0, mem, free, d, pd, w, s, v, n, r) && !r.Done? && n <= total
    ensures AliasEnd(mem0, free0, mem, free, d, pd, w, s, v, total, r)
  {
  }

  lemma RegionPages(va: nat, memstart: nat, size: int, w: nat, k: nat, q: nat, vpage: nat, src: nat)
    requires 0 < size && va == w * PGSIZE && q == w + k && k * PGSIZE < RoundUp(size)
    requires vpage == va + k * PGSIZE && src == memstart + k * PGSIZE
    ensures vpage == q * PGSIZE && PageOf(src) == PageOf(memstart) + k && k + 1 <= Pages(size)
  {
  }

  /** One round of that loop, for page `q`, seen from where it started with memory `mem0`. */
  method AliasRound(m: Machine, d: nat, pd: nat, vpage: nat, src: nat, ghost w: nat, ghost s: nat, ghost k: nat,
                    ghost q: nat, ghost mem0: Mem, ghost free0: seq<nat>, ghost o0: Owners)
    returns (r: Alias, ghost v: int)
    requires m.Valid() && GrewTables(o0, m.owner, d) && IsDir(m.owner, d) && IsDir(m.owner, pd) && d != pd
    requires vpage == q * PGSIZE && SHAREDBASE <= vpage < KERNBASE && src < U32 && q == w + k && PageOf(src) == s + k
    requires NonePresent(mem0, d, w, TOPPAGE) && Within(mem0, m.mem, m.owner, d, w, q)
    requires AliasEnd(mem0, free0, m.mem, m.free, d, pd, w, s, k, k, Done)
    modifies m
    ensures m.Valid() && GrewTables(o0, m.owner, d) && IsDir(m.owner, d) && IsDir(m.owner, pd)
    ensures Within(mem0, m.mem, m.owner, d, w, q + 1) && v == (if r.Done? then k + 1 else k)
    ensures AliasEnd(mem0, free0, m.mem, m.free, d, pd, w, s, v, k + 1, r)
  {
    ghost var mem1, free1, o1 := m.mem, m.free, m.owner;
    WithinNone(mem0, m.mem, m.owner, d, w, q, TOPPAGE);
    r := AliasPage(m, d, pd, vpage, src, q, s + k);
    v := if r.Done? then k + 1 else k;
    GrewMore(o0, o1, m.owner, d);
    WithinMore(mem0, mem1, m.mem, o1, m.owner, d, w, q, q + 1);
    match r {
      case Done => AliasRoundDone(mem0, free0, mem1, free1, m.mem, m.free, m.owner, d, pd, w, s, k, q);
      case NoSource => AliasRoundMissing(mem0, free0, mem1, free1, o1, d, pd, w, s, k);
      case MapFailed => AliasRoundFailed(mem0, free0, mem1, free1, m.mem, m.free, m.owner, d, pd, w, s, k, q);
    }
  }

  /** What one page adds to the pages aliased before. */
  lemma AliasRoundDone(mem0: Mem, free0: seq<nat>, mem1: Mem, free1: seq<nat>, mem2: Mem, free2: seq<nat>, o2: Owners,
                       d: nat, pd: nat, w: nat, s: nat, k: nat, q: nat)
    requires AliasEnd(mem0, free0, mem1, free1, d, pd, w, s, k, k, Done) && q == w + k
    requires IsDir(o2, d) && IsDir(o2, pd) && d != pd && q < ENTRIES * ENTRIES && s + k < ENTRIES * ENTRIES
    requires Paid(mem1, free1, mem2, free2, d, {q / ENTRIES}, 0) && At(mem1, pd, s + k).present
    requires Mapped(mem1, mem2, o2, d, q, q + 1, At(mem1, pd, s + k).frame, PTE_W + PTE_U)
    ensures AliasEnd(mem0, free0, mem2, free2, d, pd, w, s, k + 1, k + 1, Done)
  {
    AliasStep(mem1, mem2, o2, d, pd, w, s, k, At(mem1, pd, s + k).frame, PTE_W + PTE_U);
    PaidRound(mem0, free0, mem1, free1, mem2, free2, d, w, q, q / ENTRIES);
  }

  lemma AliasRoundMissing(mem0: Mem, free0: seq<nat>, mem1: Mem, free1: seq<nat>, o1: Owners,
                          d: nat, pd: nat, w: nat, s: nat, k: nat)
    requires AliasEnd(mem0, free0, mem1, free1, d, pd, w, s, k, k, Done) && IsDir(o1, pd) && d != pd
    requires Within(mem0, mem1, o1, d, w, w + k) && !At(mem1, pd, s + k).present && s + k < ENTRIES * ENTRIES
    ensures AliasEnd(mem0, free0, mem1, free1, d, pd, w, s, k, k + 1, NoSource)
  {
    WithinAt(mem0, mem1, o1, d, w, w + k, pd, s + k);
  }

  lemma AliasRoundFailed(mem0: Mem, free0: seq<nat>, mem1: Mem, free1: seq<nat>, mem2: Mem, free2: seq<nat>, o2: Owners,
                         d: nat, pd: nat, w: nat, s: nat, k: nat, q: nat)
    requires AliasEnd(mem0, free0, mem1, free1, d, pd, w, s, k, k, Done) && q == w + k
    requires IsDir(o2, d) && IsDir(o2, pd) && d != pd && q < ENTRIES * ENTRIES && s + k < ENTRIES * ENTRIES
    requires Within(mem1, mem2, o2, d, q, q + 1) && NoTableFor(mem1, free1, mem2, free2, d, q)
    ensures AliasEnd(mem0, free0, mem2, free2, d, pd, w, s, k, k + 1, MapFailed)
  {
    AliasKeptBefore(mem1, mem2, o2, d, pd, w, s, k);
    PaidMore(mem0, free0, mem1, free1, mem2, free2, d, SlotsOf(w, q), 0, {}, 0);
    assert SlotsOf(w, q) + {} == SlotsOf(w, q);
  }

  lemma AliasKeptBefore(mem1: Mem, mem2: Mem, o: Owners, d: nat, pd: nat, w: nat, s: nat, k: nat)
    requires AliasedTo(mem1, d, pd, w, s, k) && Within(mem1, mem2, o, d, w + k, w + k + 1)
    requires IsDir(o, d) && IsDir(o, pd) && d != pd && w + k <= ENTRIES * ENTRIES && s + k <= ENTRIES * ENTRIES
    ensures AliasedTo(mem2, d, pd, w, s, k)
  {
    AliasKept(mem1, mem2, o, d, pd, w, s, k, w + k, w + k + 1);
  }

  /** The regions a child may access: positive sizes, sources in the address space, windows below the kernel. */
  ghost predicate Accessible(t: Table, n: int) {
    && InUse(t, n)
    && (forall i :: 0 <= i < n ==> t[i].size > 0 && t[i].memstart + Pages(t[i].size) * PGSIZE <= U32)
    && Window(t, n) <= TOPPAGE
  }

  lemma {:induction false} WindowsRise(t: Table, i: nat, n: nat)
    requires i <= n <= SHAREDCOUNT
    ensures Window(t, i) <= Window(t, n)
    decreases n
  {
    if i < n {
      WindowsRise(t, i, n - 1);
    }
  }

  lemma RelocatedKept(mem1: Mem, mem2: Mem, o: Owners, d: nat, pd: nat, t: Table, t': Table, i: nat, n: int)
    requires Accessible(t, n) && i < n && IsDir(o, d) && IsDir(o, pd) && d != pd
    requires Relocated(mem1, d, pd, t, t', i) && Within(mem1, mem2, o, d, Window(t, i), Window(t, i + 1))
    ensures Relocated(mem2, d, pd, t, t', i)
  {
    forall k | 0 <= k < i
      ensures RegionDone(mem2, d, pd, t, t', k)
    {
      assert RegionDone(mem1, d, pd, t, t', k);
      WindowsRise(t, k + 1, i);
      WindowsRise(t, i, n);
      AliasKept(mem1, mem2, o, d, pd, Window(t, k), PageOf(t[k].memstart), Pages(t[k].size), Window(t, i),
                Window(t, i + 1));
    }
  }

  lemma RelocatedStep(mem1: Mem, mem2: Mem, o: Owners, d: nat, pd: nat, t: Table, t': Table, u: Table, i: nat, n: int)
    requires Accessible(t, n) && i < n && IsDir(o, d) && IsDir(o, pd) && d != pd
    requires Relocated(mem1, d, pd, t, t', i) && Within(mem1, mem2, o, d, Window(t, i), Window(t, i + 1))
    requires AliasedTo(mem2, d, pd, Window(t, i), PageOf(t[i].memstart), Pages(t[i].size))
    requires u == t'[i := t'[i].(memstart := Window(t, i) * PGSIZE + t'[i].memstart % PGSIZE)]
    ensures Relocated(mem2, d, pd, t, u, i + 1)
  {
    RelocatedKept(mem1, mem2, o, d, pd, t, t', i, n);
    forall k | 0 <= k < i + 1
      ensures RegionDone(mem2, d, pd, t, u, k)
    {
      assert k < i ==> RegionDone(mem2, d, pd, t, t', k);
    }
  }

  /** Page `p` of region `i` is not mapped in the parent. */
  ghost predicate SourceMissing(mem: Mem, pd: nat, t: Table, i: int, p: int) {
    0 <= i < SHAREDCOUNT && 0 <= p < Pages(t[i].size) && !At(mem, pd, PageOf(t[i].memstart) + p).present
  }

  ghost predicate SourcesMapped(mem: Mem, pd: nat, t: Table, n: int) {
    forall i, p :: 0 <= i < n ==> !SourceMissing(mem, pd, t, i, p)
  }

  /** The page tables that the windows of `n` regions still need. */
  ghost function WindowCost(mem: Mem, d: nat, t: Table, n: nat): (c: nat)
    requires n <= SHAREDCOUNT
  {
    |SlotsOf(SHAREDBASE / PGSIZE, Window(t, n)) - Slots(mem, d)|
  }

  /** The outer loop has done `i` regions. */
  ghost predicate Accessing(mem0: Mem, free0: seq<nat>, mem: Mem, free: seq<nat>, o: Owners, d: nat, pd: nat,
                            t: Table, t': Table, i: nat) {
    && i <= SHAREDCOUNT && Relocated(mem, d, pd, t, t', i)
    && Within(mem0, mem, o, d, SHAREDBASE / PGSIZE, Window(t, i)) && SourcesMapped(mem0, pd, t, i)
    && Paid(mem0, free0, mem, free, d, SlotsOf(SHAREDBASE / PGSIZE, Window(t, i)), 0)
  }

  /**
   access_shared_memory: when it reports success, every region of the child's table is aliased page by
   page into its own window, the windows follow each other from SHAREDBASE, and the table holds the
   new addresses.  No page outside the windows and no other address space changes.  It succeeds
   exactly if the parent has mapped all pages of the regions and there is memory for the page tables.
   At a page that the parent has not mapped it stops, with the `k` regions before done.  With `undo`,
   memory has run out and the pages aliased so far in the region are freed; nothing more is
   stated then.
   */
  method AccessSharedMemory(m: Machine, d: nat, pd: nat, t: Table, ghost n: int)
    returns (r: int, t': Table, ghost k: int, undo: bool)
    requires m.Valid() && IsDir(m.owner, d) && IsDir(m.owner, pd) && d != pd
    requires Accessible(t, n) && NonePresent(m.mem, d, SHAREDBASE / PGSIZE, TOPPAGE)
    modifies m
    ensures !undo ==> m.Valid() && GrewTables(old(m.owner), m.owner, d) && IsDir(m.owner, d) && IsDir(m.owner, pd)
    ensures !undo ==> Within(old(m.mem), m.mem, m.owner, d, SHAREDBASE / PGSIZE, Window(t, n))
    ensures !undo ==> 0 <= k <= n && Relocated(m.mem, d, pd, t, t', k) && r == if k == n then 0 else -1
    ensures !undo && k < n ==> exists p :: SourceMissing(old(m.mem), pd, t, k, p)
    ensures undo ==> r == -1 && |old(m.free)| < WindowCost(old(m.mem), d, t, n)
    ensures r == 0 <==> SourcesMapped(old(m.mem), pd, t, n) && |old(m.free)| >= WindowCost(old(m.mem), d, t, n)
  {
    t' := t;
    var va := SHAREDBASE;
    var i := 0;
    NothingAccessed(m.mem, m.free, m.owner, d, pd, t);
    while i < SHAREDCOUNT
      invariant 0 <= i <= n && va == Window(t, i) * PGSIZE
      invariant m.Valid() && GrewTables(old(m.owner), m.owner, d) && IsDir(m.owner, d) && IsDir(m.owner, pd)
      invariant Accessing(old(m.mem), old(m.free), m.mem, m.free, m.owner, d, pd, t, t', i)
    {
      if t'[i].size == 0 {
        break;
      }
      var x;
      x, t' := AccessSlot(m, d, pd, t, t', i, n, va, old(m.mem), old(m.free), old(m.owner));
      if !x.Done? {
        return -1, t', i, x.MapFailed?;
      }
      WindowEnd(t, i, va);
      va := va + RoundUp(t[i].size);
      i := i + 1;
    }
    PaidFrames(old(m.mem), old(m.free), m.mem, m.free, d, SlotsOf(SHAREDBASE / PGSIZE, Window(t, n)), 0);
    return 0, t', i, false;
  }

  lemma NothingAccessed(mem: Mem, free: seq<nat>, o: Owners, d: nat, pd: nat, t: Table)
    ensures Accessing(mem, free, mem, free, o, d, pd, t, t, 0)
  {
    PaidNothing(mem, free, d);
    OneSlot(SHAREDBASE / PGSIZE);
  }

  /** One round of the outer loop: alias the region and move its table entry. */
  method AccessSlot(m: Machine, d: nat, pd: nat, t: Table, t1: Table, i: nat, ghost n: int, va: nat,
                    ghost mem0: Mem, ghost free0: seq<nat>, ghost o0: Owners) returns (x: Alias, t': Table)
    requires m.Valid() && GrewTables(o0, m.owner, d) && IsDir(m.owner, d) && IsDir(m.owner, pd) && d != pd
    requires Accessible(t, n) && i < n && va == Window(t, i) * PGSIZE && IsDir(o0, pd)
    requires NonePresent(mem0, d, SHAREDBASE / PGSIZE, TOPPAGE)
    requires Accessing(mem0, free0, m.mem, m.free, m.owner, d, pd, t, t1, i)
    modifies m
    ensures m.Valid() && GrewTables(o0, m.owner, d) && IsDir(m.owner, d) && IsDir(m.owner, pd)
    ensures x.Done? ==> Accessing(mem0, free0, m.mem, m.free, m.owner, d, pd, t, t', i + 1)
    ensures !x.Done? ==> t' == t1 && Relocated(m.mem, d, pd, t, t1, i)
                         && Within(mem0, m.mem, m.owner, d, SHAREDBASE / PGSIZE, Window(t, n))
    ensures x.NoSource? ==> exists p :: SourceMissing(mem0, pd, t, i, p)
    ensures x.MapFailed? ==> |free0| < WindowCost(mem0, d, t, n)
  {
    ghost var mem1, free1, o1 := m.mem, m.free, m.owner;
    WindowsRise(t, i + 1, n);
    ghost var v;
    x, v := AccessRegion(m, d, pd, t, i, n, va, mem0, o0);
    t' := t1;
    if x.Done? {
      t' := t1[i := t1[i].(memstart := va + t1[i].memstart % PGSIZE)];
      SlotAccessed(mem0, free0, mem1, free1, m.mem, m.free, o1, m.owner, d, pd, t, t1, t', i, n);
    } else {
      WithinWider(mem0, m.mem, m.owner, d, SHAREDBASE / PGSIZE, Window(t, i + 1), Window(t, n));
      RelocatedKept(mem1, m.mem, m.owner, d, pd, t, t1, i, n);
      SlotStopped(mem0, free0, mem1, free1, m.mem, m.free, o1, d, pd, t, i, n, Window(t, i), Window(t, n), v, x);
    }
  }

  /** A region that is done. */
  lemma SlotAccessed(mem0: Mem, free0: seq<nat>, mem1: Mem, free1: seq<nat>, mem2: Mem, free2: seq<nat>, o1: Owners,
                     o2: Owners, d: nat, pd: nat, t: Table, t1: Table, t': Table, i: nat, n: int)
    requires Accessing(mem0, free0, mem1, free1, o1, d, pd, t, t1, i) && Accessible(t, n) && i < n
    requires IsDir(o1, pd) && IsDir(o2, d) && IsDir(o2, pd) && d != pd
    requires Within(mem0, mem2, o2, d, SHAREDBASE / PGSIZE, Window(t, i + 1))
    requires Within(mem1, mem2, o2, d, Window(t, i), Window(t, i + 1))
    requires AliasEnd(mem1, free1, mem2, free2, d, pd, Window(t, i), PageOf(t[i].memstart), Pages(t[i].size),
                      Pages(t[i].size), Done)
    requires t' == t1[i := t1[i].(memstart := Window(t, i) * PGSIZE + t1[i].memstart % PGSIZE)]
    ensures Accessing(mem0, free0, mem2, free2, o2, d, pd, t, t', i + 1)
  {
    RelocatedStep(mem1, mem2, o2, d, pd, t, t1, t', i, n);
    WindowsRise(t, i + 1, n);
    WindowsPaid(mem0, free0, mem1, free1, mem2, free2, d, Window(t, i), Window(t, i + 1));
    forall j, p | 0 <= j < i + 1 ensures !SourceMissing(mem0, pd, t, j, p) {
      if j == i && 0 <= p < Pages(t[i].size) {
        assert Aliased(mem2, d, pd, Window(t, i), PageOf(t[i].memstart), p);
        WithinAt(mem0, mem2, o2, d, SHAREDBASE / PGSIZE, Window(t, i + 1), pd, PageOf(t[i].memstart) + p);
      }
    }
  }

  lemma WindowsPaid(m0: Mem, f0: seq<nat>, m1: Mem, f1: seq<nat>, m2: Mem, f2: seq<nat>, d: nat, w: nat, v: nat)
    requires SHAREDBASE / PGSIZE <= w <= v <= ENTRIES * ENTRIES
    requires Paid(m0, f0, m1, f1, d, SlotsOf(SHAREDBASE / PGSIZE, w), 0) && Paid(m1, f1, m2, f2, d, SlotsOf(w, v), 0)
    ensures Paid(m0, f0, m2, f2, d, SlotsOf(SHAREDBASE / PGSIZE, v), 0)
  {
    SlotsJoin(SHAREDBASE / PGSIZE, w, v);
    PaidMore(m0, f0, m1, f1, m2, f2, d, SlotsOf(SHAREDBASE / PGSIZE, w), 0, SlotsOf(w, v), 0);
  }

  lemma SlotsJoin(lo: nat, w: nat, v: nat)
    requires lo <= w <= v <= ENTRIES * ENTRIES
    ensures SlotsOf(lo, v) == SlotsOf(lo, w) + SlotsOf(w, v)
  {
    if lo < w < v {
      forall i ensures i in SlotsOf(lo, v) <==> i in SlotsOf(lo, w) + SlotsOf(w, v) {
        assert InSlots(lo, v, i) <==> InSlots(lo, w, i) || InSlots(w, v, i);
      }
    }
  }

  /** A region with a page that the parent has not mapped. */
  lemma SlotMissing(mem0: Mem, mem1: Mem, o1: Owners, d: nat, pd: nat, t: Table, i: nat, n: int, p: int)
    requires Accessible(t, n) && i < n && IsDir(o1, pd) && d != pd && 0 <= p < Pages(t[i].size)
    requires Within(mem0, mem1, o1, d, SHAREDBASE / PGSIZE, Window(t, i))
    requires !At(mem1, pd, PageOf(t[i].memstart) + p).present && PageOf(t[i].memstart) + p < ENTRIES * ENTRIES
    ensures SourceMissing(mem0, pd, t, i, p)
  {
    WithinAt(mem0, mem1, o1, d, SHAREDBASE / PGSIZE, Window(t, i), pd, PageOf(t[i].memstart) + p);
  }

  /** A region that is not done: why. */
  lemma SlotStopped(mem0: Mem, free0: seq<nat>, mem1: Mem, free1: seq<nat>, mem2: Mem, free2: seq<nat>, o1: Owners,
                    d: nat, pd: nat, t: Table, i: nat, n: int, w: nat, top: nat, v: int, x: Alias)
    requires Accessible(t, n) && i < n && IsDir(o1, pd) && d != pd && !x.Done?
    requires w == Window(t, i) && top == Window(t, n) && SHAREDBASE / PGSIZE <= w
    requires w + Pages(t[i].size) <= top <= TOPPAGE
    requires Within(mem0, mem1, o1, d, SHAREDBASE / PGSIZE, w)
    requires Paid(mem0, free0, mem1, free1, d, SlotsOf(SHAREDBASE / PGSIZE, w), 0)
    requires AliasEnd(mem1, free1, mem2, free2, d, pd, w, PageOf(t[i].memstart), v, Pages(t[i].size), x)
    ensures x.NoSource? ==> SourceMissing(mem0, pd, t, i, v)
    ensures x.MapFailed? ==> |free0| < |SlotsOf(SHAREDBASE / PGSIZE, top) - Slots(mem0, d)|
  {
    if x.NoSource? {
      SlotMissing(mem0, mem1, o1, d, pd, t, i, n, v);
    } else {
      WindowsShort(mem0, free0, mem1, free1, mem2, free2, d, w, w + v, top, (w + v) / ENTRIES);
    }
  }

  lemma WindowsShort(m0: Mem, f0: seq<nat>, m1: Mem, f1: seq<nat>, m2: Mem, f2: seq<nat>, d: nat, w: nat, v: nat,
                     top: nat, i: int)
    requires SHAREDBASE / PGSIZE <= w <= v < top <= ENTRIES * ENTRIES && i == v / ENTRIES
    requires Paid(m0, f0, m1, f1, d, SlotsOf(SHAREDBASE / PGSIZE, w), 0) && Paid(m1, f1, m2, f2, d, SlotsOf(w, v), 0)
    requires f2 == [] && i !in Slots(m2, d)
    ensures |f0| < |SlotsOf(SHAREDBASE / PGSIZE, top) - Slots(m0, d)|
  {
    var lo := SHAREDBASE / PGSIZE;
    WindowsPaid(m0, f0, m1, f1, m2, f2, d, w, v);
    SlotsOfMore(lo, v, top);
    PaidShort(m0, f0, m2, f2, d, SlotsOf(lo, v), 0, SlotsOf(lo, top), i);
  }

  lemma WindowEnd(t: Table, i: nat, va: nat)
    requires i < SHAREDCOUNT && t[i].size > 0 && va == Window(t, i) * PGSIZE
    ensures va + RoundUp(t[i].size) == Window(t, i + 1) * PGSIZE
  {
  }

  /** One region of the outer loop; `v` pages of it are aliased. */
  method AccessRegion(m: Machine, d: nat, pd: nat, t: Table, i: nat, ghost n: int, va: nat,
                      ghost mem0: Mem, ghost o0: Owners) returns (r: Alias, ghost v: int)
    requires m.Valid() && GrewTables(o0, m.owner, d) && IsDir(m.owner, d) && IsDir(m.owner, pd) && d != pd
    requires Accessible(t, n) && i < n && va == Window(t, i) * PGSIZE
    requires NonePresent(mem0, d, SHAREDBASE / PGSIZE, TOPPAGE)
    requires Within(mem0, m.mem, m.owner, d, SHAREDBASE / PGSIZE, Window(t, i))
    modifies m
    ensures m.Valid() && GrewTables(o0, m.owner, d) && IsDir(m.owner, d) && IsDir(m.owner, pd)
    ensures Within(mem0, m.mem, m.owner, d, SHAREDBASE / PGSIZE, Window(t, i + 1))
    ensures Within(old(m.mem), m.mem, m.owner, d, Window(t, i), Window(t, i + 1))
    ensures AliasEnd(old(m.mem), old(m.free), m.mem, m.free, d, pd, Window(t, i), PageOf(t[i].memstart),
                     v, Pages(t[i].size), r)
  {
    ghost var mem1, o1 := m.mem, m.owner;
    WindowsRise(t, i + 1, n);
    WithinNone(mem0, mem1, m.owner, d, SHAREDBASE / PGSIZE, Window(t, i), TOPPAGE);
    r, v := AliasRegion(m, d, pd, va, t[i].memstart, t[i].size, Window(t, i), PageOf(t[i].memstart));
    GrewMore(o0, o1, m.owner, d);
    WithinMore(mem0, mem1, m.mem, o1, m.owner, d, SHAREDBASE / PGSIZE, Window(t, i), Window(t, i + 1));
  }

  // ---------- end to end ----------

  datatype Phys = Faults | Physical(pa: int)

  /** The physical address behind virtual address `va` of directory `d`. */
  function PhysOf(mem: Mem, d: nat, va: nat): (p: Phys) {
    var e := At(mem, d, PageOf(va));
    if e.present then Physical(e.frame * PGSIZE + va % PGSIZE) else Faults
  }

  lemma ByteAliased(mem: Mem, d: nat, pd: nat, w: nat, start: nat, size: int, k: nat)
    requires AliasedTo(mem, d, pd, w, PageOf(start), Pages(size)) && size > 0
    requires start % PGSIZE + k < RoundUp(size)
    ensures PhysOf(mem, d, w * PGSIZE + start % PGSIZE + k) == PhysOf(mem, pd, start + k)
    ensures PhysOf(mem, pd, start + k).Physical?
  {
    var p := (start % PGSIZE + k) / PGSIZE;
    BytePage(w, start, k, p);
    assert Aliased(mem, d, pd, w, PageOf(start), p);
  }

  lemma BytePage(w: nat, start: nat, k: nat, p: nat)
    requires p == (start % PGSIZE + k) / PGSIZE
    ensures PageOf(w * PGSIZE + start % PGSIZE + k) == w + p
    ensures PageOf(start + k) == PageOf(start) + p
    ensures (w * PGSIZE + start % PGSIZE + k) % PGSIZE == (start + k) % PGSIZE
  {
  }

  /** Slot `r` holds the region shared as `name`; the slots before it are in use under other names. */
  ghost predicate SharedAt(t: Table, name: string, start: nat, size: int, r: nat) {
    r < SHAREDCOUNT && size > 0 && t[r] == Shared(Key(name), start, size) && NotBefore(t, name, r)
  }

  /** Calls of share_data one after the other: `ts` are the tables in between, `rs` the results. */
  ghost predicate ShareRun(ts: seq<Table>, cs: seq<ShareCall>, rs: seq<int>) {
    && |cs| == |rs| && |ts| == |cs| + 1
    && forall i :: 0 <= i < |cs| ==> Shares(ts[i], cs[i], rs[i], ts[i + 1])
  }

  /** A successful call puts the region into the slot it returns. */
  lemma ShareGives(t: Table, c: ShareCall, r: int, t': Table)
    requires Shares(t, c, r, t') && Readable(c) && r >= 0 && c.size.value > 0
    ensures SharedAt(t', c.name.value, c.start.value, c.size.value, r)
  {
  }

  lemma ShareStays(t: Table, c: ShareCall, r: int, t': Table, name: string, start: nat, size: int, slot: nat)
    requires SharedAt(t, name, start, size, slot) && Shares(t, c, r, t')
    ensures SharedAt(t', name, start, size, slot)
  {
    if r >= 0 && Readable(c) {
      assert r > slot;
    }
  }

  /** Whatever a process shares afterwards, a region shared once stays in its slot and stays the one found. */
  lemma {:induction false} RunStays(ts: seq<Table>, cs: seq<ShareCall>, rs: seq<int>, n: nat,
                                    name: string, start: nat, size: int, slot: nat)
    requires ShareRun(ts, cs, rs) && n < |ts| && SharedAt(ts[0], name, start, size, slot)
    ensures SharedAt(ts[n], name, start, size, slot)
    decreases n
  {
    if n > 0 {
      RunStays(ts, cs, rs, n - 1, name, start, size, slot);
      ShareStays(ts[n - 1], cs[n - 1], rs[n - 1], ts[n], name, start, size, slot);
    }
  }

  lemma ForkedAt(p: Table, c0: Table, c: Table, name: string, start: nat, size: int, r: nat)
    requires SharedAt(p, name, start, size, r) && Forked(p, c0, c)
    ensures SharedAt(c, name, start, size, r)
  {
    var q :| InUse(p, q) && forall i :: 0 <= i < SHAREDCOUNT ==> c[i] == if i < q then p[i] else c0[i];
    assert r < q;
  }

  lemma RelocatedAt(mem: Mem, d: nat, pd: nat, c: Table, c': Table, n: int, name: string, start: nat, size: int, r: nat)
    requires SharedAt(c, name, start, size, r) && Accessible(c, n) && Relocated(mem, d, pd, c, c', n)
    ensures r < n && RegionDone(mem, d, pd, c, c', r) && FoundAt(c', name, r)
  {
    assert r < n;
    forall i | 0 <= i <= r
      ensures c'[i].name == c[i].name
    {
      assert RegionDone(mem, d, pd, c, c', i);
    }
  }

  /**
   Shared memory, end to end.  At the fork the parent's table `p` has `size` bytes at `start` under
   `name` in slot r, and the child's access_shared_memory reports success, turning its table `c` into
   `c'`.  Then get_data finds slot r, and every byte `k` of the region inside the page-rounded window
   lies at the same physical address in the child, at the address get_data returns, as in the parent.
   */
  lemma SharedEndToEnd(p: Table, name: string, start: nat, size: int, r: nat,
                       c0: Table, c: Table, c': Table, mem: Mem, d: nat, pd: nat, n: int, k: nat)
    requires SharedAt(p, name, start, size, r) && Forked(p, c0, c)
    requires Accessible(c, n) && Relocated(mem, d, pd, c, c', n)
    requires start % PGSIZE + k < RoundUp(size)
    ensures FoundAt(c', name, r)
    ensures c'[r].memstart == Window(c, r) * PGSIZE + start % PGSIZE
    ensures PhysOf(mem, d, c'[r].memstart + k) == PhysOf(mem, pd, start + k)
    ensures PhysOf(mem, pd, start + k).Physical?
  {
    ForkedAt(p, c0, c, name, start, size, r);
    RelocatedAt(mem, d, pd, c, c', n, name, start, size, r);
    ByteAliased(mem, d, pd, Window(c, r), start, size, k);
  }

  /** The same for every successful call in any run of share_data calls that ends with the fork. */
  lemma EveryShareReachesChild(ts: seq<Table>, cs: seq<ShareCall>, rs: seq<int>, i: nat,
                               c0: Table, c: Table, c': Table, mem: Mem, d: nat, pd: nat, n: int, k: nat)
    requires ShareRun(ts, cs, rs) && i < |cs| && Readable(cs[i]) && 0 <= rs[i] < SHAREDCOUNT && cs[i].size.value > 0
    requires Forked(ts[|cs|], c0, c) && Accessible(c, n) && Relocated(mem, d, pd, c, c', n)
    requires cs[i].start.value % PGSIZE + k < RoundUp(cs[i].size.value)
    ensures FoundAt(c', cs[i].name.value, rs[i])
    ensures PhysOf(mem, d, c'[rs[i]].memstart + k) == PhysOf(mem, pd, cs[i].start.value + k)
    ensures PhysOf(mem, pd, cs[i].start.value + k).Physical?
  {
    var name, start, size, r := cs[i].name.value, cs[i].start.value, cs[i].size.value, rs[i];
    ShareGives(ts[i], cs[i], r, ts[i + 1]);
    var m := i + 1;
    assert ShareRun(ts[m..], cs[m..], rs[m..]);
    RunStays(ts[m..], cs[m..], rs[m..], |cs| - m, name, start, size, r);
    SharedEndToEnd(ts[|cs|], name, start, size, r, c0, c, c', mem, d, pd, n, k);
  }
}
