/**
 Page tables and page frames (kernel/vm.c, kernel/kalloc.c) as values: two-level tables kept in
 frames, a flat view of them, and who owns which frame.

 Frames are numbered (physical address / PGSIZE).  A page is its 1024 words, each read as a
 page-table entry.  A virtual address splits into a directory index, a table index and an offset
 as in 32-bit paging (section 4.3 of the Intel 64 and IA-32 Architectures Software Developer's
 Manual, volume 3A).
 */
module Vm {
  import opened Numbers

  const PGSIZE: nat := 4096
  const ENTRIES: nat := 1024
  const SHAREDBASE: nat := 0x4000_0000
  const KERNBASE: nat := 0x8000_0000
  const SHAREDPDX: nat := 256   // PDX(SHAREDBASE)
  const KERNPDX: nat := 512     // PDX(KERNBASE)

  const PTE_W: nat := 2
  const PTE_U: nat := 4

  /** A 32-bit entry: bit 0, the frame number in the top 20 bits, the other flag bits. */
  datatype Pte = Pte(present: bool, frame: nat, flags: nat)

  const NOPTE: Pte := Pte(false, 0, 0)

  type Page = p: seq<Pte> | |p| == ENTRIES witness seq(ENTRIES, _ => NOPTE)
  type Mem = map<nat, Page>

  function ZeroPage(): (p: Page)
    ensures forall k :: 0 <= k < ENTRIES ==> p[k] == NOPTE
  {
    seq(ENTRIES, _ => NOPTE)
  }

  /** kfree fills a page with bytes 1. */
  function JunkPage(): (p: Page) {
    seq(ENTRIES, _ => Pte(true, 0x1010, 0x100))
  }

  // ---------- addresses ----------

  function Pdx(va: nat): (i: nat) {
    (va / 0x40_0000) % ENTRIES
  }

  function Ptx(va: nat): (j: nat) {
    (va / PGSIZE) % ENTRIES
  }

  function PageOf(va: nat): (v: nat) {
    va / PGSIZE
  }

  function RoundDown(a: nat): (r: nat) {
    a - a % PGSIZE
  }

  function RoundUp(a: nat): (r: nat) {
    (a + PGSIZE - 1) / PGSIZE * PGSIZE
  }

  /** Directory and table index are the two digits of the page number, base 1024. */
  lemma PageDigits(va: nat)
    requires va < U32
    ensures Pdx(va) < ENTRIES && Ptx(va) < ENTRIES
    ensures Pdx(va) * ENTRIES + Ptx(va) == PageOf(va)
    ensures Pdx(va) < SHAREDPDX <==> va < SHAREDBASE
    ensures Pdx(va) < KERNPDX <==> va < KERNBASE
  {
  }

  // ---------- the flat view ----------

  /** Word `i` of frame `d`. */
  function Word(mem: Mem, d: nat, i: int): (e: Pte) {
    if d in mem && 0 <= i < ENTRIES then mem[d][i] else NOPTE
  }

  /** What the tables of directory `d` say about the page with indices `i`, `j`. */
  function Entry(mem: Mem, d: nat, i: int, j: int): (e: Pte) {
    var e := Word(mem, d, i);
    if e.present then Word(mem, e.frame, j) else NOPTE
  }

  // ---------- ownership ----------

  /** What a managed frame is used for; `Held` covers kernel stacks, pipes and pages in transit. */
  datatype Owner = Free | Dir | Table(d: nat, i: int) | User(d: nat, i: int, j: int) | Held

  type Owners = map<nat, Owner>

  ghost predicate Is(owner: Owners, f: nat, o: Owner) {
    f in owner && owner[f] == o
  }

  ghost predicate IsDir(owner: Owners, d: nat) {
    d in owner && owner[d].Dir?
  }

  ghost predicate FreeOk(free: seq<nat>, owner: Owners) {
    && (forall k, m :: 0 <= k < m < |free| ==> free[k] != free[m])
    && (forall f :: f in free ==> Is(owner, f, Free))
    && (forall f {:trigger f in free} :: f in owner && owner[f].Free? ==> f in free)
  }

  /** Present directory entries and table frames correspond one to one. */
  ghost predicate TablesOk(mem: Mem, owner: Owners) {
    && owner.Keys <= mem.Keys
    && (forall d, i {:trigger Word(mem, d, i)} ::
          IsDir(owner, d) && 0 <= i < ENTRIES && Word(mem, d, i).present ==>
              Is(owner, Word(mem, d, i).frame, Table(d, i)))
    && (forall f {:trigger IsTableOf(mem, owner, f, owner[f].d, owner[f].i)} ::
          f in owner && owner[f].Table? ==> IsTableOf(mem, owner, f, owner[f].d, owner[f].i))
  }

  ghost predicate IsTableOf(mem: Mem, owner: Owners, f: nat, d: nat, i: int) {
    IsDir(owner, d) && 0 <= i < ENTRIES && Word(mem, d, i).present && Word(mem, d, i).frame == f
  }

  /** Pages mapped below SHAREDBASE and user frames correspond one to one. */
  ghost predicate UsersOk(mem: Mem, owner: Owners) {
    && (forall d, i, j {:trigger Entry(mem, d, i, j)} ::
          IsDir(owner, d) && 0 <= i < SHAREDPDX && 0 <= j < ENTRIES && Entry(mem, d, i, j).present ==>
            Is(owner, Entry(mem, d, i, j).frame, User(d, i, j)))
    && (forall f {:trigger IsPageOf(mem, owner, f, owner[f].d, owner[f].i, owner[f].j)} ::
          f in owner && owner[f].User? ==> IsPageOf(mem, owner, f, owner[f].d, owner[f].i, owner[f].j))
  }

  ghost predicate IsPageOf(mem: Mem, owner: Owners, f: nat, d: nat, i: int, j: int) {
    && IsDir(owner, d) && 0 <= i < SHAREDPDX && 0 <= j < ENTRIES
    && Entry(mem, d, i, j).present && Entry(mem, d, i, j).frame == f
  }

  /** Free list, directories, tables and user pages partition the managed frames as `owner` says. */
  ghost predicate Inv(mem: Mem, free: seq<nat>, owner: Owners) {
    FreeOk(free, owner) && TablesOk(mem, owner) && UsersOk(mem, owner)
  }

  /** The flat views of all directories agree. */
  ghost predicate SameView(mem: Mem, mem': Mem, owner: Owners) {
    forall d, i, j :: IsDir(owner, d) && 0 <= i < ENTRIES && 0 <= j < ENTRIES ==>
      Entry(mem', d, i, j) == Entry(mem, d, i, j)
  }

  /**
   What the account implies about the tables alone: two different user pages never share a frame, no
   user frame or table frame is on the free list, and no user frame holds a table.
   */
  lemma FramesPrivate(mem: Mem, free: seq<nat>, owner: Owners, d: nat, i: int, j: int, d2: nat, i2: int, j2: int)
    requires Inv(mem, free, owner) && IsDir(owner, d) && IsDir(owner, d2)
    requires 0 <= i < SHAREDPDX && 0 <= j < ENTRIES && Entry(mem, d, i, j).present
    requires 0 <= i2 < SHAREDPDX && 0 <= j2 < ENTRIES && Entry(mem, d2, i2, j2).present
    ensures Entry(mem, d, i, j).frame == Entry(mem, d2, i2, j2).frame ==> d == d2 && i == i2 && j == j2
    ensures Entry(mem, d, i, j).frame !in free && Word(mem, d, i).frame !in free && d !in free
    ensures Entry(mem, d, i, j).frame != Word(mem, d2, i2).frame
    ensures Word(mem, d, i).frame == Word(mem, d2, i2).frame ==> d == d2 && i == i2
  {
    assert Is(owner, Entry(mem, d, i, j).frame, User(d, i, j))
           && Is(owner, Entry(mem, d2, i2, j2).frame, User(d2, i2, j2));
    assert Is(owner, Word(mem, d, i).frame, Table(d, i)) && Is(owner, Word(mem, d2, i2).frame, Table(d2, i2));
  }

  // ---------- changing frames nobody's tables live in ----------

  /** Rewriting a frame that is neither directory nor table changes no entry. */
  lemma ScratchWrite(mem: Mem, owner: Owners, f: nat, p: Page)
    requires TablesOk(mem, owner) && UsersOk(mem, owner)
    requires f in owner && !owner[f].Dir? && !owner[f].Table?
    ensures TablesOk(mem[f := p], owner) && UsersOk(mem[f := p], owner) && SameView(mem, mem[f := p], owner)
  {
    var mem' := mem[f := p];
    SameWords(mem, mem', owner, f);
    UsersFrame(mem, mem', owner, owner);
  }

  lemma SameWords(mem: Mem, mem': Mem, owner: Owners, f: nat)
    requires TablesOk(mem, owner) && f in owner && !owner[f].Dir? && !owner[f].Table?
    requires mem'.Keys == mem.Keys && forall g :: g in mem && g != f ==> mem'[g] == mem[g]
    ensures TablesOk(mem', owner) && SameView(mem, mem', owner)
  {
    forall d, i | IsDir(owner, d) && 0 <= i < ENTRIES
      ensures Word(mem', d, i) == Word(mem, d, i)
    {
    }
    forall g | g in owner && owner[g].Table?
      ensures IsTableOf(mem', owner, g, owner[g].d, owner[g].i)
    {
      assert IsTableOf(mem, owner, g, owner[g].d, owner[g].i);
    }
  }

  lemma UsersFrame(mem: Mem, mem': Mem, owner: Owners, owner': Owners)
    requires UsersOk(mem, owner) && SameView(mem, mem', owner)
    requires forall d :: IsDir(owner, d) <==> IsDir(owner', d)
    requires forall f :: f in owner && owner[f].User? ==> Is(owner', f, owner[f])
    requires forall f :: f in owner' && owner'[f].User? ==> Is(owner, f, owner'[f])
    ensures UsersOk(mem', owner')
  {
    forall d, i, j | IsDir(owner', d) && 0 <= i < SHAREDPDX && 0 <= j < ENTRIES && Entry(mem', d, i, j).present
      ensures Is(owner', Entry(mem', d, i, j).frame, User(d, i, j))
    {
      assert Entry(mem', d, i, j) == Entry(mem, d, i, j);
    }
    forall f | f in owner' && owner'[f].User?
      ensures IsPageOf(mem', owner', f, owner'[f].d, owner'[f].i, owner'[f].j)
    {
      assert IsPageOf(mem, owner, f, owner[f].d, owner[f].i, owner[f].j);
    }
  }

  /** Changing what frames are used for, other than as directories, tables and user pages. */
  lemma Reowned(mem: Mem, owner: Owners, f: nat, o: Owner)
    requires TablesOk(mem, owner) && UsersOk(mem, owner)
    requires f in owner && (owner[f].Free? || owner[f].Held?) && (o.Free? || o.Held?)
    ensures TablesOk(mem, owner[f := o]) && UsersOk(mem, owner[f := o])
  {
    var owner' := owner[f := o];
    forall d, i | IsDir(owner', d) && 0 <= i < ENTRIES && Word(mem, d, i).present
      ensures Is(owner', Word(mem, d, i).frame, Table(d, i))
    {
      assert IsDir(owner, d);
    }
    forall g | g in owner' && owner'[g].Table?
      ensures IsTableOf(mem, owner', g, owner'[g].d, owner'[g].i)
    {
      assert IsTableOf(mem, owner, g, owner[g].d, owner[g].i);
    }
    UsersFrame(mem, mem, owner, owner');
  }

  // ---------- walkpgdir with alloc ----------

  ghost function WithTable(mem: Mem, d: nat, i: nat, t: nat): (r: Mem)
    requires d in mem && i < ENTRIES
  {
    var m := mem[t := ZeroPage()];
    m[d := m[d][i := Pte(true, t, PTE_W + PTE_U)]]
  }

  /** Hanging a zeroed page into an empty directory slot adds no mapping. */
  lemma NewTable(mem: Mem, owner: Owners, d: nat, i: nat, t: nat)
    requires TablesOk(mem, owner) && UsersOk(mem, owner)
    requires IsDir(owner, d) && i < ENTRIES && !Word(mem, d, i).present && Is(owner, t, Held)
    ensures var mem', owner' := WithTable(mem, d, i, t), owner[t := Table(d, i)];
            TablesOk(mem', owner') && UsersOk(mem', owner') && SameView(mem, mem', owner)
  {
    var mem', owner' := WithTable(mem, d, i, t), owner[t := Table(d, i)];
    NewTableWords(mem, owner, d, i, t);
    assert forall k :: IsDir(owner, k) <==> IsDir(owner', k);
    UsersFrame(mem, mem', owner, owner');
  }

  lemma NewTableWords(mem: Mem, owner: Owners, d: nat, i: nat, t: nat)
    requires TablesOk(mem, owner)
    requires IsDir(owner, d) && i < ENTRIES && !Word(mem, d, i).present && Is(owner, t, Held)
    ensures var mem', owner' := WithTable(mem, d, i, t), owner[t := Table(d, i)];
            TablesOk(mem', owner') && SameView(mem, mem', owner)
  {
    var mem', owner' := WithTable(mem, d, i, t), owner[t := Table(d, i)];
    forall e, k | IsDir(owner, e) && 0 <= k < ENTRIES
      ensures Word(mem', e, k) == if e == d && k == i then Pte(true, t, PTE_W + PTE_U) else Word(mem, e, k)
    {
    }
    forall g | g in owner' && owner'[g].Table?
      ensures IsTableOf(mem', owner', g, owner'[g].d, owner'[g].i)
    {
      if g != t {
        assert IsTableOf(mem, owner, g, owner[g].d, owner[g].i);
      }
    }
    forall e, k, j | IsDir(owner, e) && 0 <= k < ENTRIES && 0 <= j < ENTRIES
      ensures Entry(mem', e, k, j) == Entry(mem, e, k, j)
    {
      if !(e == d && k == i) && Word(mem, e, k).present {
        assert Is(owner, Word(mem, e, k).frame, Table(e, k));
      }
    }
  }

  // ---------- writing one entry ----------

  ghost function WithEntry(mem: Mem, d: nat, i: nat, j: nat, e: Pte): (r: Mem)
    requires Word(mem, d, i).frame in mem && j < ENTRIES
  {
    var t := Word(mem, d, i).frame;
    mem[t := mem[t][j := e]]
  }

  /** Exactly one page of one directory changes. */
  ghost predicate OneEntry(mem: Mem, mem': Mem, owner: Owners, d: nat, i: nat, j: nat, e: Pte) {
    forall d2, i2, j2 {:trigger Entry(mem', d2, i2, j2)} ::
      IsDir(owner, d2) && 0 <= i2 < ENTRIES && 0 <= j2 < ENTRIES ==>
        Entry(mem', d2, i2, j2) == if d2 == d && i2 == i && j2 == j then e else Entry(mem, d2, i2, j2)
  }

  lemma StoreEntry(mem: Mem, owner: Owners, d: nat, i: nat, j: nat, e: Pte)
    requires TablesOk(mem, owner) && IsDir(owner, d) && i < ENTRIES && j < ENTRIES && Word(mem, d, i).present
    ensures Is(owner, Word(mem, d, i).frame, Table(d, i)) && Word(mem, d, i).frame in mem
    ensures TablesOk(WithEntry(mem, d, i, j, e), owner)
    ensures OneEntry(mem, WithEntry(mem, d, i, j, e), owner, d, i, j, e)
  {
    var t := Word(mem, d, i).frame;
    assert Is(owner, t, Table(d, i));
    var mem' := WithEntry(mem, d, i, j, e);
    forall d2, i2 | IsDir(owner, d2) && 0 <= i2 < ENTRIES
      ensures Word(mem', d2, i2) == Word(mem, d2, i2)
    {
    }
    forall g | g in owner && owner[g].Table?
      ensures IsTableOf(mem', owner, g, owner[g].d, owner[g].i)
    {
      assert IsTableOf(mem, owner, g, owner[g].d, owner[g].i);
    }
    forall d2, i2, j2 | IsDir(owner, d2) && 0 <= i2 < ENTRIES && 0 <= j2 < ENTRIES
      ensures Entry(mem', d2, i2, j2) == if d2 == d && i2 == i && j2 == j then e else Entry(mem, d2, i2, j2)
    {
      if Word(mem, d2, i2).present {
        assert Is(owner, Word(mem, d2, i2).frame, Table(d2, i2));
      }
    }
  }

  /** At or above SHAREDBASE an entry owns nothing. */
  lemma StoreShared(mem: Mem, owner: Owners, d: nat, i: nat, j: nat, e: Pte)
    requires TablesOk(mem, owner) && UsersOk(mem, owner)
    requires IsDir(owner, d) && SHAREDPDX <= i < ENTRIES && j < ENTRIES && Word(mem, d, i).present
    ensures Word(mem, d, i).frame in mem
    ensures TablesOk(WithEntry(mem, d, i, j, e), owner) && UsersOk(WithEntry(mem, d, i, j, e), owner)
    ensures OneEntry(mem, WithEntry(mem, d, i, j, e), owner, d, i, j, e)
  {
    StoreEntry(mem, owner, d, i, j, e);
    var mem' := WithEntry(mem, d, i, j, e);
    forall d2, i2, j2 | IsDir(owner, d2) && 0 <= i2 < SHAREDPDX && 0 <= j2 < ENTRIES && Entry(mem', d2, i2, j2).present
      ensures Is(owner, Entry(mem', d2, i2, j2).frame, User(d2, i2, j2))
    {
      assert Entry(mem', d2, i2, j2) == Entry(mem, d2, i2, j2);
    }
    forall f | f in owner && owner[f].User?
      ensures IsPageOf(mem', owner, f, owner[f].d, owner[f].i, owner[f].j)
    {
      assert IsPageOf(mem, owner, f, owner[f].d, owner[f].i, owner[f].j);
    }
  }

  lemma TablesReowned(mem: Mem, owner: Owners, f: nat, o: Owner)
    requires TablesOk(mem, owner) && f in owner && (owner[f].Held? || owner[f].User?) && (o.Held? || o.User? || o.Free?)
    ensures TablesOk(mem, owner[f := o])
    ensures forall d :: IsDir(owner, d) <==> IsDir(owner[f := o], d)
  {
    var owner' := owner[f := o];
    forall d, i | IsDir(owner', d) && 0 <= i < ENTRIES && Word(mem, d, i).present
      ensures Is(owner', Word(mem, d, i).frame, Table(d, i))
    {
      assert IsDir(owner, d);
    }
    forall g | g in owner' && owner'[g].Table?
      ensures IsTableOf(mem, owner', g, owner'[g].d, owner'[g].i)
    {
      assert IsTableOf(mem, owner, g, owner[g].d, owner[g].i);
    }
  }

  /** Below SHAREDBASE, mapping a held frame at an unmapped page makes it that page's frame. */
  lemma StoreUser(mem: Mem, owner: Owners, d: nat, i: nat, j: nat, f: nat, flags: nat)
    requires TablesOk(mem, owner) && UsersOk(mem, owner)
    requires IsDir(owner, d) && i < SHAREDPDX && j < ENTRIES && Word(mem, d, i).present
    requires !Entry(mem, d, i, j).present && Is(owner, f, Held)
    ensures Word(mem, d, i).frame in mem
    ensures var mem', owner' := WithEntry(mem, d, i, j, Pte(true, f, flags)), owner[f := User(d, i, j)];
            && TablesOk(mem', owner') && UsersOk(mem', owner')
            && OneEntry(mem, mem', owner', d, i, j, Pte(true, f, flags))
  {
    StoreEntry(mem, owner, d, i, j, Pte(true, f, flags));
    var mem', owner' := WithEntry(mem, d, i, j, Pte(true, f, flags)), owner[f := User(d, i, j)];
    TablesReowned(mem', owner, f, User(d, i, j));
    forall d2, i2, j2 | IsDir(owner', d2) && 0 <= i2 < SHAREDPDX && 0 <= j2 < ENTRIES && Entry(mem', d2, i2, j2).present
      ensures Is(owner', Entry(mem', d2, i2, j2).frame, User(d2, i2, j2))
    {
      assert IsDir(owner, d2);
    }
    forall g | g in owner' && owner'[g].User?
      ensures IsPageOf(mem', owner', g, owner'[g].d, owner'[g].i, owner'[g].j)
    {
      if g != f {
        assert IsPageOf(mem, owner, g, owner[g].d, owner[g].i, owner[g].j);
      }
    }
  }

  /** Clearing a user page's entry puts its frame in the kernel's hand. */
  lemma ClearUser(mem: Mem, owner: Owners, d: nat, i: nat, j: nat)
    requires TablesOk(mem, owner) && UsersOk(mem, owner)
    requires IsDir(owner, d) && i < SHAREDPDX && j < ENTRIES && Entry(mem, d, i, j).present
    ensures Word(mem, d, i).frame in mem
    ensures var f := Entry(mem, d, i, j).frame;
            var mem', owner' := WithEntry(mem, d, i, j, NOPTE), owner[f := Held];
            && Is(owner, f, User(d, i, j))
            && TablesOk(mem', owner') && UsersOk(mem', owner')
            && OneEntry(mem, mem', owner', d, i, j, NOPTE)
  {
    StoreEntry(mem, owner, d, i, j, NOPTE);
    var f := Entry(mem, d, i, j).frame;
    var mem', owner' := WithEntry(mem, d, i, j, NOPTE), owner[f := Held];
    TablesReowned(mem', owner, f, Held);
    forall d2, i2, j2 | IsDir(owner', d2) && 0 <= i2 < SHAREDPDX && 0 <= j2 < ENTRIES && Entry(mem', d2, i2, j2).present
      ensures Is(owner', Entry(mem', d2, i2, j2).frame, User(d2, i2, j2))
    {
      assert IsDir(owner, d2) && Entry(mem', d2, i2, j2) == Entry(mem, d2, i2, j2);
    }
    forall g | g in owner' && owner'[g].User?
      ensures IsPageOf(mem', owner', g, owner'[g].d, owner'[g].i, owner'[g].j)
    {
      assert IsPageOf(mem, owner, g, owner[g].d, owner[g].i, owner[g].j);
    }
  }
}
