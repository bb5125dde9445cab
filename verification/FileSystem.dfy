/**
 The block allocator and the inode layer.  `d` holds the blocks as they are read through the buffer
 cache, `ino` the inodes as ilock has loaded them; `logged` is the set of blocks the running
 transaction has passed to log_write.
 */
module FileSystem {
  import opened Numbers
  import opened Blocks
  import opened Ownership
  import opened Growth
  import opened Truncation
  import opened FileContents
  import opened InodeTable
  import opened Writing

  const T_DEV: int := 3

  /** What a call comes to: a C return value, or the kernel stops because the disk is full. */
  datatype Outcome = Done(n: int) | Panic

  class FileSystem {
    const sb: Super
    var d: Disk
    var ino: seq<Inode>
    ghost var o: Owners
    ghost var logged: set<nat>

    ghost function S(): (s: State)
      reads this
    {
      State(d, ino, o)
    }

    ghost predicate Ok()
      reads this
    {
      Inv(sb, d, ino, o)
    }

    /** Between operations: no file has a hole, and the inode cache is written through. */
    ghost predicate Valid()
      reads this
    {
      Ok() && FilesOk(d, ino) && ino == DiskInodes(sb, d)
    }

    /** Mount a good image, such as mkfs makes and every recovery leaves behind. */
    constructor (sb: Super, d: Disk)
      requires GoodImage(sb, d)
      ensures Valid() && this.sb == sb && this.d == d && logged == {}
    {
      this.sb, this.d, ino, logged := sb, d, DiskInodes(sb, d), {};
      ghost var owners :| GoodWith(sb, d, owners);
      o := owners;
    }

    method LogWrite(b: nat)
      modifies `logged
      ensures logged == old(logged) + {b}
    {
      logged := logged + {b};
    }

    /**
     Allocate the first free block, zeroed, for `who`.  0, which is never a free block, stands for
     the "out of blocks" panic.
     */
    method Balloc(ghost who: Owner) returns (r: nat)
      requires Ok() && Reached(who)
      modifies `d, `o, `logged
      ensures r == 0 ==> d == old(d) && o == old(o) && logged == old(logged)
      ensures r == 0 ==> forall b: nat :: b < |o| ==> o[b] != Free
      ensures r != 0 ==> r < sb.size && old(o)[r] == Free && forall b: nat :: b < r ==> old(o)[b] != Free
      ensures r != 0 ==> BitBlock(sb, r) < |old(d)| && d == Claimed(sb, old(d), r) && o == old(o)[r := who]
      ensures r != 0 ==> logged == old(logged) + {BitBlock(sb, r), r}
    {
      var b := 0;
      while b < sb.size
        invariant b % BPB == 0
        invariant forall c: nat :: c < b && c < |o| ==> o[c] != Free
        invariant d == old(d) && o == old(o) && logged == old(logged)
      {
        var found, bi := FindBit(b);
        if found {
          MetaZero(sb, o);
          Claim(b, bi, who);
          return b + bi;
        }
        b := b + BPB;
      }
      return 0;
    }

    /** The inner loop of balloc: the first clear bit of one block of the map. */
    method FindBit(b: nat) returns (found: bool, bi: nat)
      requires Ok() && b < sb.size && b % BPB == 0
      ensures found ==> bi < BPB && b + bi < sb.size && o[b + bi] == Free
      ensures forall c: nat :: b <= c < (if found then b + bi else b + BPB) && c < sb.size ==> o[c] != Free
    {
      BitBlockIsMeta(sb, o, b);
      var bp := d[BitBlock(sb, b)];
      bi := 0;
      while bi < BPB && b + bi < sb.size
        invariant bi <= BPB && b + bi <= sb.size
        invariant forall c: nat :: b <= c < b + bi ==> o[c] != Free
      {
        SameBitBlock(sb, b, bi);
        assert InUse(sb, d, b + bi) <==> HasBit(bp, bi);
        if !HasBit(bp, bi) {
          return true, bi;
        }
        bi := bi + 1;
      }
      return false, bi;
    }

    /** Mark the block in use and zero it. */
    method Claim(b: nat, bi: nat, ghost who: Owner)
      requires Ok() && bi < BPB && b % BPB == 0 && b + bi < sb.size
      modifies `d, `o, `logged
      ensures BitBlock(sb, b + bi) < |old(d)| && d == Claimed(sb, old(d), b + bi) && o == old(o)[b + bi := who]
      ensures logged == old(logged) + {BitBlock(sb, b + bi), b + bi}
    {
      SameBitBlock(sb, b, bi);
      BitBlockIsMeta(sb, o, b);
      var bp := d[BitBlock(sb, b)];
      d := d[BitBlock(sb, b) := WithBit(bp, bi)];
      LogWrite(BitBlock(sb, b));
      Bzero(b + bi);
      o := o[b + bi := who];
    }

    method Bzero(b: nat)
      requires b < |d|
      modifies `d, `logged
      ensures d == old(d)[b := Zeroes()] && logged == old(logged) + {b}
    {
      d := d[b := Zeroes()];
      LogWrite(b);
    }

    /** Free a block; its bit must be set, otherwise the source panics with "freeing free block". */
    method Bfree(b: nat)
      requires sb.Valid() && |d| == |o| == sb.size && MapOk(sb, d, o) && MetaOk(sb, o)
      requires b < sb.size && Reached(o[b])
      modifies `d, `o, `logged
      ensures BitBlock(sb, b) < |old(d)| && d == Released(sb, old(d), b) && o == old(o)[b := Free]
      ensures old(InUse(sb, d, b)) && MapOk(sb, d, o) && MetaOk(sb, o)
      ensures logged == old(logged) + {BitBlock(sb, b)}
    {
      ReleaseMap(sb, d, o, b);
      var bp := d[BitBlock(sb, b)];
      var bi := b % BPB;
      if !HasBit(bp, bi) {
        assert false;
      }
      d := d[BitBlock(sb, b) := WithoutBit(bp, bi)];
      o := o[b := Free];
      LogWrite(BitBlock(sb, b));
    }

    // ----- bmap -----

    /** Give inode `i` an indirect block unless it has one; false stands for the panic. */
    method MapIndirect(i: nat) returns (ok: bool, ghost bits: set<nat>)
      requires Ok() && i < |ino|
      modifies `d, `o, `ino, `logged
      ensures !ok ==> forall b: nat :: b < |o| ==> o[b] != Free
      ensures ok ==> Inv(sb, d, ino, o) && Grew(old(S()), S(), i) && 0 < ino[i].addrs[NDIRECT] < |d|
      ensures ok ==> forall k: nat :: Addr(d, ino[i], k) == Addr(old(d), old(ino)[i], k)
      ensures ok ==> |bits| <= NewIndirects(old(ino)[i]) && logged <= old(logged) + bits + {ino[i].addrs[NDIRECT]}
      ensures old(ino)[i].addrs[NDIRECT] != 0 ==> ok && S() == old(S()) && logged == old(logged)
      ensures ok ==> Journaled(old(d), d, old(logged), logged)
    {
      ok, bits := true, {};
      assert Holds(d, o, i, ino[i], 0);
      if ino[i].addrs[NDIRECT] == 0 {
        ok, bits := AddIndirect(i);
      } else {
        GrewSame(S(), i);
      }
    }

    method AddIndirect(i: nat) returns (ok: bool, ghost bits: set<nat>)
      requires Ok() && i < |ino| && ino[i].addrs[NDIRECT] == 0
      modifies `d, `o, `ino, `logged
      ensures !ok ==> forall b: nat :: b < |o| ==> o[b] != Free
      ensures ok ==> Inv(sb, d, ino, o) && Grew(old(S()), S(), i) && 0 < ino[i].addrs[NDIRECT] < |d|
      ensures ok ==> forall k: nat :: Addr(d, ino[i], k) == Addr(old(d), old(ino)[i], k)
      ensures ok ==> |bits| <= 1 && logged <= old(logged) + bits + {ino[i].addrs[NDIRECT]}
      ensures ok ==> Journaled(old(d), d, old(logged), logged)
    {
      bits := {};
      var b := Balloc(Indirect(i));
      ok := b != 0;
      if ok {
        ClaimIndirect(sb, old(S()), i, b);
        ClaimJournaled(sb, old(d), b, old(logged));
        ino := ino[i := ino[i].(addrs := ino[i].addrs[NDIRECT := b])];
        assert S() == IndirectPut(sb, old(S()), i, b);
        bits := {BitBlock(sb, b)};
      }
    }

    /** The block of a file; allocated, with the indirect block, when it is missing.  0 stands for the panic. */
    method Bmap(i: nat, bn: nat) returns (r: nat, ghost bits: set<nat>)
      requires Ok() && i < |ino| && bn < MAXFILE
      modifies `d, `o, `ino, `logged
      ensures r == 0 ==> forall b: nat :: b < |o| ==> o[b] != Free
      ensures r != 0 ==> BmapGave(sb, old(S()), S(), i, bn, r)
      ensures Addr(old(d), old(ino)[i], bn) != 0 ==> r != 0 && S() == old(S()) && logged == old(logged)
      ensures r != 0 ==> IndirectSet(old(ino)[i]) <= IndirectSet(ino[i])
      ensures r != 0 ==> |bits| <= Allocations(old(d), old(ino)[i], bn)
      ensures r != 0 ==> logged <= old(logged) + {r} + bits + IndirectSet(ino[i])
      ensures r != 0 ==> Journaled(old(d), d, old(logged), logged)
    {
      if bn < NDIRECT {
        r, bits := MapDirect(i, bn);
      } else {
        r, bits := MapFar(i, bn);
      }
    }

    /** The second half of bmap: the indirect block, then the word in it. */
    method MapFar(i: nat, bn: nat) returns (r: nat, ghost bits: set<nat>)
      requires Ok() && i < |ino| && NDIRECT <= bn < MAXFILE
      modifies `d, `o, `ino, `logged
      ensures r == 0 ==> forall b: nat :: b < |o| ==> o[b] != Free
      ensures r != 0 ==> BmapGave(sb, old(S()), S(), i, bn, r)
      ensures Addr(old(d), old(ino)[i], bn) != 0 ==> r != 0 && S() == old(S()) && logged == old(logged)
      ensures r != 0 ==> IndirectSet(old(ino)[i]) <= IndirectSet(ino[i])
      ensures r != 0 ==> |bits| <= Allocations(old(d), old(ino)[i], bn)
      ensures r != 0 ==> logged <= old(logged) + {r} + bits + IndirectSet(ino[i])
      ensures r != 0 ==> Journaled(old(d), d, old(logged), logged)
    {
      ghost var s := S();
      var ok, bits0 := MapIndirect(i);
      if !ok {
        return 0, {};
      }
      ghost var half, lg := S(), logged;
      r, bits := MapWord(i, bn);
      if r != 0 {
        GaveVia(sb, s, half, S(), i, bn, r);
        JournaledTrans(s.d, half.d, d, old(logged), lg, logged);
        UnionSize(bits0, bits);
        bits := bits0 + bits;
      }
    }

    method MapDirect(i: nat, bn: nat) returns (r: nat, ghost bits: set<nat>)
      requires Ok() && i < |ino| && bn < NDIRECT
      modifies `d, `o, `ino, `logged
      ensures r == 0 ==> forall b: nat :: b < |o| ==> o[b] != Free
      ensures r != 0 ==> BmapGave(sb, old(S()), S(), i, bn, r) && ino[i].addrs[NDIRECT] == old(ino)[i].addrs[NDIRECT]
      ensures old(ino)[i].addrs[bn] != 0 ==> r != 0 && S() == old(S()) && logged == old(logged)
      ensures r != 0 ==> |bits| <= (if old(ino)[i].addrs[bn] == 0 then 1 else 0) && logged <= old(logged) + {r} + bits
      ensures r != 0 ==> Journaled(old(d), d, old(logged), logged)
    {
      r, bits := ino[i].addrs[bn], {};
      GaveSame(sb, S(), i, bn);
      if r == 0 {
        r, bits := AddDirect(i, bn);
      }
    }

    /** Allocate a block and record it in the inode. */
    method AddDirect(i: nat, bn: nat) returns (r: nat, ghost bits: set<nat>)
      requires Ok() && i < |ino| && bn < NDIRECT && ino[i].addrs[bn] == 0
      modifies `d, `o, `ino, `logged
      ensures r == 0 ==> forall b: nat :: b < |o| ==> o[b] != Free
      ensures r != 0 ==> BmapGave(sb, old(S()), S(), i, bn, r) && ino[i].addrs[NDIRECT] == old(ino)[i].addrs[NDIRECT]
      ensures r != 0 ==> |bits| <= 1 && logged <= old(logged) + {r} + bits
      ensures r != 0 ==> Journaled(old(d), d, old(logged), logged)
    {
      bits := {};
      ghost var s, lg := S(), logged;
      r := ClaimNear(i, bn);
      if r != 0 {
        StoreAddr(i, bn, r, s, lg);
        bits := {BitBlock(sb, r)};
      }
    }

    method ClaimNear(i: nat, bn: nat) returns (r: nat)
      requires Ok() && i < |ino| && bn < NDIRECT && ino[i].addrs[bn] == 0
      modifies `d, `o, `logged
      ensures r == 0 ==> forall b: nat :: b < |o| ==> o[b] != Free
      ensures r != 0 ==> r < U32 && NearClaimed(sb, old(S()), i, bn, r)
      ensures r != 0 ==> S() == State(Claimed(sb, old(d), r), ino, old(o)[r := Data(i, bn)])
      ensures r != 0 ==> logged == old(logged) + {BitBlock(sb, r), r}
    {
      ghost var s := S();
      r := Balloc(Data(i, bn));
      if r != 0 {
        ClaimDirectGave(sb, s, i, bn, r);
      }
    }

    /** Record the claimed block `r` in the inode. */
    method StoreAddr(i: nat, bn: nat, r: Word, ghost s: State, ghost lg: set<nat>)
      requires r < |s.d| && BitBlock(sb, r) < |s.d| && i < |s.ino| && bn < NDIRECT && r < |s.o|
      requires S() == State(Claimed(sb, s.d, r), s.ino, s.o[r := Data(i, bn)]) && logged == lg + {BitBlock(sb, r), r}
      modifies `ino
      ensures S() == DirectPut(sb, s, i, bn, r) && Journaled(s.d, d, lg, logged)
      ensures ino[i].addrs[NDIRECT] == s.ino[i].addrs[NDIRECT]
    {
      ClaimJournaled(sb, s.d, r, lg);
      ino := ino[i := ino[i].(addrs := ino[i].addrs[bn := r])];
    }

    method MapWord(i: nat, bn: nat) returns (r: nat, ghost bits: set<nat>)
      requires Ok() && i < |ino| && NDIRECT <= bn < MAXFILE && 0 < ino[i].addrs[NDIRECT] < |d|
      modifies `d, `o, `logged
      ensures r == 0 ==> forall b: nat :: b < |o| ==> o[b] != Free
      ensures r != 0 ==> BmapGave(sb, old(S()), S(), i, bn, r)
      ensures Addr(old(d), ino[i], bn) != 0 ==> r != 0 && S() == old(S()) && logged == old(logged)
      ensures r != 0 ==> |bits| <= (if Addr(old(d), ino[i], bn) == 0 then 1 else 0)
      ensures r != 0 ==> logged <= old(logged) + {r} + bits + {ino[i].addrs[NDIRECT]}
      ensures r != 0 ==> Journaled(old(d), d, old(logged), logged)
    {
      var x := ino[i].addrs[NDIRECT];
      r, bits := GetWord(d[x], bn - NDIRECT), {};
      GaveSame(sb, S(), i, bn);
      if r == 0 {
        r, bits := AddWord(i, bn, x);
      }
    }

    /** Allocate a block and record it in the indirect block `x`. */
    method AddWord(i: nat, bn: nat, x: nat) returns (r: nat, ghost bits: set<nat>)
      requires Ok() && i < |ino| && NDIRECT <= bn < MAXFILE && 0 < x == ino[i].addrs[NDIRECT] < |d|
      requires Addr(d, ino[i], bn) == 0
      modifies `d, `o, `logged
      ensures r == 0 ==> forall b: nat :: b < |o| ==> o[b] != Free
      ensures r != 0 ==>
                BmapGave(sb, old(S()), S(), i, bn, r) && |bits| <= 1 && logged <= old(logged) + {r} + bits + {x}
      ensures r != 0 ==> Journaled(old(d), d, old(logged), logged)
    {
      bits := {};
      ghost var s, lg := S(), logged;
      r := ClaimFar(i, bn);
      if r != 0 {
        StoreWord(i, bn, x, r, s, lg);
        bits := {BitBlock(sb, r)};
      }
    }

    /** Allocate a block that the indirect block of inode `i` is to name. */
    method ClaimFar(i: nat, bn: nat) returns (r: nat)
      requires Ok() && i < |ino| && NDIRECT <= bn < MAXFILE && 0 < ino[i].addrs[NDIRECT] < |d|
      requires Addr(d, ino[i], bn) == 0
      modifies `d, `o, `logged
      ensures r == 0 ==> forall b: nat :: b < |o| ==> o[b] != Free
      ensures r != 0 ==> r < U32 && FarClaimed(sb, old(S()), i, bn, r)
      ensures r != 0 ==> S() == State(Claimed(sb, old(d), r), ino, old(o)[r := Data(i, bn)])
      ensures r != 0 ==> logged == old(logged) + {BitBlock(sb, r), r}
    {
      ghost var s := S();
      r := Balloc(Data(i, bn));
      if r != 0 {
        ClaimWordGave(sb, s, i, bn, r);
      }
    }

    /** Record the claimed block `r` in the indirect block `x`. */
    method StoreWord(i: nat, bn: nat, x: nat, r: Word, ghost s: State, ghost lg: set<nat>)
      requires r < |s.d| && BitBlock(sb, r) < |s.d| && i < |s.ino| && NDIRECT <= bn < MAXFILE && r < |s.o|
      requires x == s.ino[i].addrs[NDIRECT] < |s.d| && x != r && x != BitBlock(sb, r)
      requires S() == State(Claimed(sb, s.d, r), s.ino, s.o[r := Data(i, bn)]) && logged == lg + {BitBlock(sb, r), r}
      modifies `d, `logged
      ensures S() == WordPut(sb, s, i, bn, r) && Journaled(s.d, d, lg, logged)
      ensures logged == lg + {BitBlock(sb, r), r} + {x}
    {
      WordJournaled(sb, s, lg, i, bn, r, x);
      d := d[x := PutWord(d[x], bn - NDIRECT, r)];
      LogWrite(x);
    }

    // ----- itrunc -----

    /** Copy inode `i` to its place in the inode table. */
    method Iupdate(i: nat)
      requires Ok() && FilesOk(d, ino) && StaleAtMost(sb, d, ino, i)
      modifies `d, `logged
      ensures Valid() && |d| == |old(d)|
              && forall j: nat :: j < |ino| ==> Contents(d, ino[j]) == Contents(old(d), ino[j])
      ensures logged == old(logged) + {InodeBlock(sb, i)} && Journaled(old(d), d, old(logged), logged)
    {
      UpdateFiles(sb, d, ino, o, i);
      d := d[InodeBlock(sb, i) := PutInode(d[InodeBlock(sb, i)], i % IPB, ino[i])];
      LogWrite(InodeBlock(sb, i));
    }

    /** Free block `bn` of the file, if it has one. */
    method DropBlock(i: nat, bn: nat, b: nat)
      requires Partial(sb, S(), i, bn) && bn < MAXFILE && b == Addr(d, ino[i], bn)
      modifies `d, `o, `logged
      ensures Partial(sb, S(), i, bn + 1) && Cut(old(S()), S(), i)
      ensures forall x: nat :: x < |d| && Reached(old(o)[x]) ==> d[x] == old(d)[x]
      ensures MapJournaled(sb, old(d), d, old(logged), logged)
    {
      BlockAt(sb, S(), i, bn);
      if b != 0 {
        ReleaseBlock(sb, S(), i, bn, b);
        ReleaseCut(sb, S(), i, b);
        ReleaseKeepsIndirect(sb, S(), b);
        ReleaseJournaled(sb, d, b, logged);
        Bfree(b);
      } else {
        SkipBlock(sb, S(), i, bn);
      }
    }

    /** The first loop of itrunc: free the direct blocks. */
    method DropDirect(i: nat)
      requires Ok() && i < |ino|
      modifies `d, `o, `ino, `logged
      ensures Partial(sb, S(), i, NDIRECT) && Cut(old(S()), S(), i)
      ensures MapJournaled(sb, old(d), d, old(logged), logged)
      ensures ino == old(ino)[i := old(ino)[i].(addrs := Tail(old(ino)[i].addrs, NDIRECT))]
    {
      StartPartial(sb, S(), i);
      ghost var s := S();
      TailNone(s.ino, i);
      for k := 0 to NDIRECT
        invariant |ino| == |s.ino| && Partial(sb, S(), i, k) && Cut(s, S(), i)
        invariant ino == s.ino[i := s.ino[i].(addrs := Tail(s.ino[i].addrs, k))]
        invariant MapJournaled(sb, old(d), d, old(logged), logged)
      {
        ghost var t, lg := S(), logged;
        DropBlock(i, k, ino[i].addrs[k]);
        CutTrans(s, t, S(), i);
        MapJournaledTrans(sb, s.d, t.d, d, old(logged), lg, logged);
        var n' := ino[i].(addrs := ino[i].addrs[k := 0]);
        ClearDirect(sb, S(), i, k, n');
        TailMore(s.ino[i].addrs, k);
        ino := ino[i := n'];
      }
    }

    /** The second part of itrunc: free the blocks the indirect block names, then the indirect block. */
    method DropIndirect(i: nat)
      requires Partial(sb, S(), i, NDIRECT) && ino[i].addrs[NDIRECT] != 0
      modifies `d, `o, `logged
      ensures Without(sb, S(), i) && Cut(old(S()), S(), i)
      ensures MapJournaled(sb, old(d), d, old(logged), logged)
    {
      ghost var s := S();
      var x := ino[i].addrs[NDIRECT];
      var a := d[x];
      for j := 0 to NINDIRECT
        invariant Partial(sb, S(), i, NDIRECT + j) && Cut(s, S(), i)
        invariant d[x] == a
        invariant MapJournaled(sb, old(d), d, old(logged), logged)
      {
        ghost var t, lg := S(), logged;
        DropBlock(i, NDIRECT + j, GetWord(a, j));
        CutTrans(s, t, S(), i);
        MapJournaledTrans(sb, s.d, t.d, d, old(logged), lg, logged);
      }
      ghost var t, lg := S(), logged;
      ReleaseIndirect(sb, t, i, x);
      ReleaseCut(sb, t, i, x);
      ReleaseJournaled(sb, d, x, logged);
      Bfree(x);
      CutTrans(s, t, S(), i);
      MapJournaledTrans(sb, s.d, t.d, d, old(logged), lg, logged);
    }

    /** Free all blocks of the file. */
    method DropAll(i: nat)
      requires Ok() && i < |ino|
      modifies `d, `o, `ino, `logged
      ensures Without(sb, S(), i) && Cut(old(S()), S(), i)
      ensures MapJournaled(sb, old(d), d, old(logged), logged)
      ensures ino == old(ino)[i := old(ino)[i].(addrs := Tail(old(ino)[i].addrs, NDIRECT))]
    {
      ghost var s := S();
      DropDirect(i);
      if ino[i].addrs[NDIRECT] != 0 {
        ghost var t, lg := S(), logged;
        DropIndirect(i);
        CutTrans(s, t, S(), i);
        MapJournaledTrans(sb, s.d, t.d, d, old(logged), lg, logged);
      } else {
        NoIndirectLeft(sb, S(), i);
      }
    }

    /**
     Discard the contents of a file: its blocks, and no others, become free.  The blocks logged are the
     inode's and those of the free-block map.
     */
    method Itrunc(i: nat)
      requires Valid() && i < |ino|
      modifies `d, `o, `ino, `logged
      ensures Valid() && OthersSame(old(S()), S(), i) && Freed(old(o), o, i)
      ensures ino == old(ino)[i := old(ino)[i].(size := 0, addrs := NoAddrs())]
      ensures Journaled(old(d), d, old(logged), logged) && logged <= old(logged) + MapBlocks(sb) + {InodeBlock(sb, i)}
    {
      ghost var s, lg := S(), logged;
      DropAll(i);
      ClearInode(i, s);
      ghost var t, lg1 := S(), logged;
      Iupdate(i);
      JournaledTrans(s.d, t.d, d, lg, lg1, logged);
    }

    /** The inode of a file whose blocks are gone, in memory. */
    method ClearInode(i: nat, ghost s: State)
      requires Without(sb, S(), i) && Cut(s, S(), i) && Inv(sb, s.d, s.ino, s.o) && FilesOk(s.d, s.ino)
      requires i < |s.ino| && s.ino == DiskInodes(sb, s.d)
      requires ino == s.ino[i := s.ino[i].(addrs := Tail(s.ino[i].addrs, NDIRECT))]
      modifies `ino
      ensures Ok() && FilesOk(d, ino) && StaleAtMost(sb, d, ino, i) && OthersSame(s, S(), i) && Freed(s.o, o, i)
      ensures ino == s.ino[i := s.ino[i].(size := 0, addrs := NoAddrs())]
    {
      CutAll(sb, s, S(), i);
      TailAll(s.ino[i].addrs);
      TableKept(sb, s.d, d, s.o, i);
      var n' := ino[i].(size := 0, addrs := ino[i].addrs[NDIRECT := 0]);
      Emptied(sb, S(), i, n');
      ino := ino[i := n'];
      EmptyFile(d, n');
      OthersStay(s, S(), i);
    }

    /** iput of the last reference to a file without links. */
    method FreeInode(i: nat)
      requires Valid() && i < |ino|
      modifies `d, `o, `ino, `logged
      ensures Valid() && OthersSame(old(S()), S(), i) && Freed(old(o), o, i)
      ensures ino == old(ino)[i := old(ino)[i].(kind := 0, size := 0, addrs := NoAddrs())]
      ensures Journaled(old(d), d, old(logged), logged) && logged <= old(logged) + MapBlocks(sb) + {InodeBlock(sb, i)}
    {
      Itrunc(i);
      ghost var s, lg := S(), logged;
      var n' := ino[i].(kind := 0);
      Resized(sb, S(), i, n');
      EmptyFile(d, n');
      ino := ino[i := n'];
      SameDisk(s, S(), i);
      Iupdate(i);
      JournaledTrans(old(d), s.d, d, old(logged), lg, logged);
    }

    /** Take the first free inode for a file of type `kind`.  0 stands for the "no inodes" panic. */
    method Ialloc(kind: Short) returns (r: nat)
      requires Valid()
      modifies `d, `ino, `logged
      ensures Valid() && Journaled(old(d), d, old(logged), logged)
      ensures r == 0 ==> unchanged(this) && forall k: nat :: 1 <= k < |ino| ==> ino[k].kind != 0
      ensures r != 0 ==> r < |ino| && old(ino)[r].kind == 0 && forall k: nat :: 1 <= k < r ==> old(ino)[k].kind != 0
      ensures r != 0 ==> ino == old(ino)[r := Inode(kind, 0, 0, 0, 0, NoAddrs())] && OthersSame(old(S()), S(), r)
      ensures r != 0 ==> logged == old(logged) + {InodeBlock(sb, r)}
    {
      var inum := 1;
      while inum < sb.ninodes
        invariant 1 <= inum && unchanged(this)
        invariant forall k: nat :: 1 <= k < inum && k < |ino| ==> ino[k].kind != 0
      {
        if InodeAt(sb, d, inum).kind == 0 {
          assert FileOk(d, ino[inum]);
          FreeIsEmpty(d, ino[inum]);
          var n' := Inode(kind, 0, 0, 0, 0, NoAddrs());
          Resized(sb, S(), inum, n');
          EmptyFile(d, n');
          ghost var s := S();
          ino := ino[inum := n'];
          SameDisk(s, S(), inum);
          Iupdate(inum);
          return inum;
        }
        inum := inum + 1;
      }
      return 0;
    }

    // ----- readi and writei -----

    /** Read up to `n` bytes at `off`.  `device` is what the driver of a device file answers. */
    method Readi(i: nat, off: nat, n: nat, device: int) returns (r: int, dst: seq<bv8>)
      requires Valid() && i < |ino| && ino[i].kind != 0 && off < U32 && n < U32
      modifies `d, `o, `ino, `logged
      ensures S() == old(S()) && logged == old(logged)
      ensures ino[i].kind == T_DEV ==> r == device && dst == []
      ensures ino[i].kind != T_DEV && (off > ino[i].size || off + n >= U32) ==> r == -1 && dst == []
      ensures ino[i].kind != T_DEV && off <= ino[i].size && off + n < U32 ==>
                r == Clipped(off, n, ino[i].size) && dst == Contents(d, ino[i])[off..off + r]
    {
      dst := [];
      if ino[i].kind == T_DEV {
        return device, [];
      }
      var end := (off + n) % U32;
      NoWrap(off, n, end);
      if off > ino[i].size || end < off {
        return -1, [];
      }
      var m := n;
      if end > ino[i].size {
        m := ino[i].size - off;
      }
      assert FileOk(d, ino[i]);
      dst := ReadAll(i, off, m);
      return m, dst;
    }

    /** The loop of readi. */
    method ReadAll(i: nat, off: nat, m: nat) returns (dst: seq<bv8>)
      requires Ok() && i < |ino| && FileOk(d, ino[i]) && off + m <= ino[i].size
      modifies `d, `o, `ino, `logged
      ensures S() == old(S()) && logged == old(logged) && dst == Contents(d, ino[i])[off..off + m]
    {
      ghost var c := Contents(d, ino[i]);
      dst := [];
      var tot := 0;
      while tot < m
        invariant tot <= m
        invariant S() == old(S()) && logged == old(logged)
        invariant dst == c[off..off + tot]
      {
        var chunk := ReadRound(i, off + tot, m - tot);
        SliceMore(c, off, off + tot, off + tot + |chunk|);
        dst := dst + chunk;
        tot := tot + |chunk|;
      }
    }

    /** One round of readi: the rest of the block at `cur`, or what is still wanted. */
    method ReadRound(i: nat, cur: nat, want: nat) returns (chunk: seq<bv8>)
      requires Ok() && i < |ino| && FileOk(d, ino[i]) && 0 < want && cur + want <= ino[i].size
      modifies `d, `o, `ino, `logged
      ensures S() == old(S()) && logged == old(logged)
      ensures 0 < |chunk| <= want && chunk == Contents(d, ino[i])[cur..cur + |chunk|]
    {
      InsideFile(d, ino[i], cur);
      var a := FindBlock(i, cur / BSIZE);
      var m := Min(want, BSIZE - cur % BSIZE);
      chunk := ReadBlock(i, a, cur, m);
    }

    /** bmap of a block that is there: nothing is allocated, logged or changed. */
    method FindBlock(i: nat, bn: nat) returns (a: nat)
      requires Ok() && i < |ino| && bn < MAXFILE && Addr(d, ino[i], bn) != 0
      modifies `d, `o, `ino, `logged
      ensures S() == old(S()) && logged == old(logged) && 0 < a < |d| && a == Addr(d, ino[i], bn)
    {
      ghost var bits;
      a, bits := Bmap(i, bn);
    }

    /** memmove out of the mapped block. */
    method ReadBlock(i: nat, a: nat, cur: nat, m: nat) returns (chunk: seq<bv8>)
      requires i < |ino| && 0 < a < |d| && a == Addr(d, ino[i], cur / BSIZE) && cur % BSIZE + m <= BSIZE
               && cur + m <= ino[i].size
      ensures |chunk| == m && chunk == Contents(d, ino[i])[cur..cur + m]
    {
      BlockSlice(d, ino[i], a, cur, m);
      chunk := Slice(d[a], cur % BSIZE, m);
    }

    /** Write `src` at `off`.  `device` is what the driver of a device file answers. */
    method Writei(i: nat, src: seq<bv8>, off: nat, device: int) returns (r: Outcome, ghost wrote: set<nat>)
      requires Valid() && i < |ino| && ino[i].kind != 0 && off < U32 && |src| < U32
      modifies `d, `o, `ino, `logged
      ensures r == Panic ==> forall b: nat :: b < |o| ==> o[b] != Free
      ensures old(ino)[i].kind == T_DEV ==> r == Done(device)
      ensures old(ino)[i].kind != T_DEV && Refused(old(ino)[i].size, off, |src|) ==> r == Done(-1)
      ensures old(ino)[i].kind == T_DEV || Refused(old(ino)[i].size, off, |src|) ==>
                S() == old(S()) && logged == old(logged)
      ensures old(ino)[i].kind != T_DEV && !Refused(old(ino)[i].size, off, |src|) && r != Panic ==>
                r == Done(|src|) && Valid() && Written(old(S()), S(), i, off, src)
      ensures r != Panic ==> Journaled(old(d), d, old(logged), logged) && logged <= old(logged) + wrote
      ensures old(ino)[i].kind != T_DEV && !Refused(old(ino)[i].size, off, |src|) && r != Panic ==>
                |wrote| <= Cost(old(ino)[i].size, off, |src|)
    {
      wrote := {};
      if ino[i].kind == T_DEV {
        return Done(device), {};
      }
      var end := (off + |src|) % U32;
      NoWrap(off, |src|, end);
      if off > ino[i].size || end < off {
        return Done(-1), {};
      }
      if end > MAXSIZE {
        return Done(-1), {};
      }
      r, wrote := WriteInside(i, src, off, end);
    }

    method WriteInside(i: nat, src: seq<bv8>, off: nat, end: nat) returns (r: Outcome, ghost wrote: set<nat>)
      requires Valid() && i < |ino| && ino[i].kind != 0 && off <= ino[i].size && end == off + |src| <= MAXSIZE
      modifies `d, `o, `ino, `logged
      ensures r == Panic ==> forall b: nat :: b < |o| ==> o[b] != Free
      ensures r != Panic ==> r == Done(|src|) && Valid() && Written(old(S()), S(), i, off, src)
      ensures r != Panic ==> logged <= old(logged) + wrote && |wrote| <= Cost(old(ino)[i].size, off, |src|)
      ensures r != Panic ==> Journaled(old(d), d, old(logged), logged)
    {
      ghost var s0 := S();
      var ok;
      ok, wrote := WriteAll(i, src, off, end);
      if !ok {
        return Panic, {};
      }
      wrote := wrote + {InodeBlock(sb, i)};
      ghost var d1, lg1 := d, logged;
      EndWrite(i, |src|, end, s0, off, src);
      JournaledTrans(s0.d, d1, d, old(logged), lg1, logged);
      return Done(|src|), wrote;
    }

    /** The end of writei: the new size, written through to the disk inode. */
    method EndWrite(i: nat, n: nat, end: nat, ghost s0: State, ghost off: nat, ghost src: seq<bv8>)
      requires Progress(sb, s0, S(), i, off, src, end) && n == |src| && end <= MAXSIZE && s0.ino[i].kind != 0
      requires Inv(sb, s0.d, s0.ino, s0.o) && FilesOk(s0.d, s0.ino) && s0.ino == DiskInodes(sb, s0.d)
      modifies `d, `ino, `logged
      ensures Valid() && Written(s0, S(), i, off, src)
      ensures logged <= old(logged) + {InodeBlock(sb, i)} && Journaled(old(d), d, old(logged), logged)
    {
      TableKept(sb, s0.d, d, s0.o, i);
      if n > 0 && end > ino[i].size {
        FinishProgress(sb, s0, S(), i, off, src, end, ino[i].(size := end));
        ino := ino[i := ino[i].(size := end)];
        ghost var s := S();
        Iupdate(i);
        WrittenOn(s0, s, S(), i, off, src);
      } else {
        FinishProgress(sb, s0, S(), i, off, src, end, ino[i]);
        assert ino[i := ino[i]] == ino;
      }
    }

    /** The loop of writei; `cur` is where the next byte goes. */
    method WriteAll(i: nat, src: seq<bv8>, off: nat, ghost stop: nat) returns (ok: bool, ghost wrote: set<nat>)
      requires Valid() && i < |ino| && off <= ino[i].size && stop == off + |src| <= MAXSIZE
      modifies `d, `o, `ino, `logged
      ensures !ok ==> forall b: nat :: b < |o| ==> o[b] != Free
      ensures ok ==> Progress(sb, old(S()), S(), i, off, src, stop) && logged <= old(logged) + wrote
      ensures ok ==> |wrote| < Cost(old(ino)[i].size, off, |src|) && Journaled(old(d), d, old(logged), logged)
    {
      assert FileOk(d, ino[i]);
      ghost var s0, datas, bits := S(), {}, {};
      StartProgress(sb, s0, i, off);
      assert src[..0] == [];
      var tot, cur := 0, off;
      while tot < |src|
        invariant tot <= |src| && Aligned(stop, off, cur)
        invariant Progress(sb, s0, S(), i, off, src[..tot], cur)
        invariant Charged(old(logged), logged, datas, bits, IndirectSet(ino[i]), s0.ino[i].size, off, cur)
        invariant Journaled(old(d), d, old(logged), logged)
      {
        ghost var d1, lg1 := d, logged;
        ok, tot, cur, datas, bits := NextRound(i, src, off, tot, cur, stop, s0, old(logged), datas, bits);
        if !ok {
          return false, {};
        }
        JournaledTrans(s0.d, d1, d, old(logged), lg1, logged);
      }
      assert src[..tot] == src && cur == stop;
      wrote := datas + bits + IndirectSet(ino[i]);
      ChargeEnd(old(logged), logged, datas, bits, IndirectSet(ino[i]), s0.ino[i].size, off, |src|, stop);
      ok := true;
    }

    /** One round of writei: as much of the source as fits into the block at `cur`. */
    method NextRound(i: nat, src: seq<bv8>, ghost off: nat, tot: nat, cur: nat, ghost stop: nat, ghost s0: State,
                     ghost lg: set<nat>, ghost datas: set<nat>, ghost bits: set<nat>)
      returns (ok: bool, tot': nat, end: nat, ghost datas': set<nat>, ghost bits': set<nat>)
      requires tot < |src| && stop == off + |src| <= MAXSIZE && Progress(sb, s0, S(), i, off, src[..tot], cur)
      requires Aligned(stop, off, cur)
               && Charged(lg, logged, datas, bits, IndirectSet(ino[i]), s0.ino[i].size, off, cur)
      modifies `d, `o, `ino, `logged
      ensures !ok ==> forall b: nat :: b < |o| ==> o[b] != Free
      ensures ok ==> tot < tot' <= |src| && Aligned(stop, off, end) && Progress(sb, s0, S(), i, off, src[..tot'], end)
      ensures ok ==> Charged(lg, logged, datas', bits', IndirectSet(ino[i]), s0.ino[i].size, off, end)
      ensures ok ==> Journaled(old(d), d, old(logged), logged)
    {
      var m := Min(|src| - tot, BSIZE - cur % BSIZE);
      tot', end := tot + m, cur + m;
      RoundSize(src, off, tot, cur, tot', end, stop);
      ghost var d0, n0, lg0 := d, ino[i], logged;
      ghost var r, more;
      ok, r, more := WriteRound(i, cur, src[tot..tot'], end, s0, off, src[..tot]);
      datas', bits' := datas + {r}, bits + more;
      if ok {
        ChargeStep(lg, lg0, logged, datas, bits, r, more, d0, n0, IndirectSet(ino[i]), s0.ino[i].size, off, cur, end,
                   stop);
      }
    }

    /** bmap, then the chunk is copied into the block. */
    method WriteRound(i: nat, cur: nat, chunk: seq<bv8>, ghost end: nat, ghost s0: State, ghost off: nat,
                      ghost data: seq<bv8>)
      returns (ok: bool, ghost r: nat, ghost bits: set<nat>)
      requires Progress(sb, s0, S(), i, off, data, cur) && InBlock(cur, end) && |chunk| == end - cur
      modifies `d, `o, `ino, `logged
      ensures !ok ==> forall b: nat :: b < |o| ==> o[b] != Free
      ensures ok ==> Progress(sb, s0, S(), i, off, data + chunk, end)
      ensures ok ==> |bits| <= Allocations(old(d), old(ino)[i], cur / BSIZE)
      ensures ok ==> logged <= old(logged) + {r} + bits + IndirectSet(ino[i])
      ensures ok ==> IndirectSet(old(ino)[i]) <= IndirectSet(ino[i])
      ensures ok ==> Journaled(old(d), d, old(logged), logged)
    {
      ghost var s := S();
      var a;
      a, bits := Bmap(i, cur / BSIZE);
      r := a;
      if a == 0 {
        return false, 0, {};
      }
      ghost var d1, lg1 := d, logged;
      Patch(i, a, cur, chunk, end, s, s0, off, data);
      JournaledTrans(s.d, d1, d, old(logged), lg1, logged);
      return true, a, bits;
    }

    /** memmove into the mapped block. */
    method Patch(i: nat, a: nat, cur: nat, chunk: seq<bv8>, ghost end: nat, ghost s: State, ghost s0: State,
                 ghost off: nat, ghost data: seq<bv8>)
      requires Progress(sb, s0, s, i, off, data, cur) && BmapGave(sb, s, S(), i, cur / BSIZE, a)
      requires InBlock(cur, end) && |chunk| == end - cur
      modifies `d, `logged
      ensures Progress(sb, s0, S(), i, off, data + chunk, end) && logged == old(logged) + {a}
      ensures Journaled(old(d), d, old(logged), logged)
    {
      ghost var t := S();
      d := d[a := Patched(d[a], cur % BSIZE, chunk)];
      StepProgress(sb, s0, s, t, S(), i, off, data, chunk, cur, end, a);
      LogWrite(a);
    }
  }

  /** The two checks of writei that answer -1. */
  ghost predicate Refused(size: nat, off: nat, n: nat) {
    off > size || off + n >= U32 || off + n > MAXSIZE
  }

  /** The unsigned test `off + n < off` finds exactly the sums that do not fit into 32 bits. */
  lemma NoWrap(off: nat, n: nat, end: nat)
    requires off < U32 && n < U32 && end == (off + n) % U32
    ensures end < off <==> off + n >= U32
    ensures off + n < U32 ==> end == off + n
  {
  }

  /** File `i` has `src` spliced in at `off`, and no other file has changed. */
  ghost predicate Written(s: State, s': State, i: nat, off: nat, src: seq<bv8>) {
    && i < |s.ino| == |s'.ino| && off <= s.ino[i].size
    && Contents(s'.d, s'.ino[i]) == Splice(Contents(s.d, s.ino[i]), off, src)
    && s'.ino[i] == s.ino[i].(size := s'.ino[i].size, addrs := s'.ino[i].addrs) && OthersSame(s, s', i)
  }

  lemma WrittenOn(s0: State, s: State, s': State, i: nat, off: nat, src: seq<bv8>)
    requires Written(s0, s, i, off, src) && s'.ino == s.ino
    requires forall j: nat :: j < |s.ino| ==> Contents(s'.d, s.ino[j]) == Contents(s.d, s.ino[j])
    ensures Written(s0, s', i, off, src)
  {
  }

  /** The blocks logged since `lg`: data blocks, bitmap blocks, and the indirect block. */
  ghost predicate Charged(lg: set<nat>, lg': set<nat>, datas: set<nat>, bits: set<nat>, ind: set<nat>,
                          size: nat, off: nat, cur: nat) {
    && off <= cur && lg' <= lg + datas + bits + ind
    && |datas| <= Touched(off, cur) && |bits| <= Gained(BlocksFor(size), Extent(size, cur))
  }

  /** Every round but the first starts on a block boundary. */
  ghost predicate Aligned(stop: nat, off: nat, cur: nat) {
    cur == off || cur == stop || cur % BSIZE == 0
  }

  lemma RoundSize(src: seq<bv8>, off: nat, tot: nat, cur: nat, tot': nat, end: nat, stop: nat)
    requires tot < |src| && cur == off + tot && stop == off + |src| <= MAXSIZE
    requires tot' - tot == end - cur == Min(|src| - tot, BSIZE - cur % BSIZE)
    ensures cur < stop && tot' <= |src| && InBlock(cur, end) && Aligned(stop, off, end)
            && src[..tot] + src[tot..tot'] == src[..tot']
  {
  }

  lemma ChargeStep(lg: set<nat>, lg0: set<nat>, lg1: set<nat>, datas: set<nat>, bits: set<nat>, r: nat, more: set<nat>,
                   d: Disk, n: Inode, ind: set<nat>, size: nat, off: nat, cur: nat, end: nat, stop: nat)
    requires Charged(lg, lg0, datas, bits, IndirectSet(n), size, off, cur)
    requires Aligned(stop, off, cur) && cur < stop && InBlock(cur, end) && Dense(d, n, Extent(size, cur))
    requires |more| <= Allocations(d, n, cur / BSIZE) && lg1 <= lg0 + {r} + more + ind && IndirectSet(n) <= ind
    ensures Charged(lg, lg1, datas + {r}, bits + more, ind, size, off, end)
  {
    GainedStep(d, n, size, cur, end);
    TouchedStep(off, cur, end);
    UnionSize(datas, {r});
    UnionSize(bits, more);
  }

  lemma ChargeEnd(lg: set<nat>, lg': set<nat>, datas: set<nat>, bits: set<nat>, ind: set<nat>, size: nat, off: nat,
                  n: nat, cur: nat)
    requires Charged(lg, lg', datas, bits, ind, size, off, cur) && |ind| <= 1 && cur == off + n
    ensures lg' <= lg + (datas + bits + ind) && |datas + bits + ind| < Cost(size, off, n)
  {
    UnionSize(datas, bits);
    UnionSize(datas + bits, ind);
  }

  /** A free block that inode `i` can name for position `bn`. */
  ghost predicate NearClaimed(sb: Super, s: State, i: nat, bn: nat, b: Word) {
    && b < |s.d| && b < |s.o| && BitBlock(sb, b) < |s.d| && i < |s.ino| && bn < NDIRECT
    && BmapGave(sb, s, DirectPut(sb, s, i, bn, b), i, bn, b)
  }

  /** A free block that the indirect block of inode `i` can name for position `bn`. */
  ghost predicate FarClaimed(sb: Super, s: State, i: nat, bn: nat, b: Word) {
    && b < |s.d| && b < |s.o| && BitBlock(sb, b) < |s.d| && i < |s.ino| && NDIRECT <= bn < MAXFILE
    && s.ino[i].addrs[NDIRECT] < |s.d| && s.ino[i].addrs[NDIRECT] != b && s.ino[i].addrs[NDIRECT] != BitBlock(sb, b)
    && BmapGave(sb, s, WordPut(sb, s, i, bn, b), i, bn, b)
  }

  /** Between calls the disk is an image that can be mounted. */
  lemma ValidIsGood(fs: FileSystem)
    requires fs.Valid()
    ensures GoodImage(fs.sb, fs.d)
  {
    assert GoodWith(fs.sb, fs.d, fs.o);
  }

  /** What itrunc may log fits one operation if and only if the disk has fewer than nine map blocks' worth of blocks. */
  lemma TruncateBudget(sb: Super, i: nat)
    requires sb.Valid() && i < sb.ninodes
    ensures |MapBlocks(sb) + {InodeBlock(sb, i)}| == sb.size / BPB + 2
    ensures |MapBlocks(sb) + {InodeBlock(sb, i)}| <= MAXOPBLOCKS <==> sb.size < 9 * BPB
  {
    assert InodeBlock(sb, i) !in MapBlocks(sb);
  }

  lemma SameBitBlock(sb: Super, b: nat, bi: nat)
    requires b % BPB == 0 && bi < BPB
    ensures BitBlock(sb, b + bi) == BitBlock(sb, b) && (b + bi) % BPB == bi
  {
  }
}
