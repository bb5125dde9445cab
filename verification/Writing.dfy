/**
 The loop of writei on values: after each round the file reads as the old contents with the bytes
 written so far spliced in, and the blocks handed to the log are counted.
 */
module Writing {
  import opened Numbers
  import opened Blocks
  import opened Ownership
  import opened Growth
  import opened FileContents

  const CHUNK: nat := (MAXOPBLOCKS - 1 - 1 - 2) / 2 * 512

  ghost function Extent(size: nat, end: nat): (r: nat) {
    Max(BlocksFor(size), BlocksFor(end))
  }

  /** From `s0`, `data` has been written to file `i` at `off`; the size is not updated yet. */
  ghost predicate Progress(sb: Super, s0: State, s: State, i: nat, off: nat, data: seq<bv8>, end: nat) {
    && end == off + |data| && i < |s0.ino| && |s.ino| == |s0.ino| && off <= s0.ino[i].size
    && Inv(sb, s.d, s.ino, s.o)
    && s.ino == s0.ino[i := s.ino[i]] && s.ino[i] == s0.ino[i].(addrs := s.ino[i].addrs)
    && OthersKept(s0.d, s.d, s0.o, i) && OwnedKept(s0.o, s.o)
    && Dense(s.d, s.ino[i], Extent(s0.ino[i].size, end))
    && View(s.d, s.ino[i], Max(s0.ino[i].size, end)) == Splice(Contents(s0.d, s0.ino[i]), off, data)
    && (end <= s0.ino[i].size ==> s.ino == s0.ino)
  }

  lemma StartProgress(sb: Super, s: State, i: nat, off: nat)
    requires Inv(sb, s.d, s.ino, s.o) && i < |s.ino| && off <= s.ino[i].size && FileOk(s.d, s.ino[i])
    ensures Progress(sb, s, s, i, off, [], off)
  {
    SpliceNone(Contents(s.d, s.ino[i]), off);
  }

  lemma OthersTrans(s: State, t: State, d: Disk, i: nat)
    requires OthersKept(s.d, t.d, s.o, i) && OwnedKept(s.o, t.o) && OthersKept(t.d, d, t.o, i)
    ensures OthersKept(s.d, d, s.o, i)
  {
  }

  /** The bytes from `cur` to `end` lie in one block of a file. */
  ghost predicate InBlock(cur: nat, end: nat) {
    cur < end && cur % BSIZE + (end - cur) <= BSIZE && cur / BSIZE < MAXFILE
  }

  /** A chunk inside one block brings the extent to the end of that block. */
  lemma ExtentStep(size: nat, cur: nat, end: nat)
    requires InBlock(cur, end)
    ensures BlocksFor(end) == cur / BSIZE + 1
    ensures Max(Extent(size, cur), cur / BSIZE + 1) == Extent(size, end)
    ensures cur / BSIZE <= Extent(size, cur) && Max(size, cur) <= Extent(size, cur) * BSIZE
    ensures end <= size ==> cur / BSIZE < Extent(size, cur)
  {
  }

  ghost predicate BmapGave(sb: Super, s: State, t: State, i: nat, bn: nat, r: nat) {
    && i < |s.ino| && Inv(sb, t.d, t.ino, t.o) && Grew(s, t, i)
    && 0 < r < |t.d| && Addr(t.d, t.ino[i], bn) == r && t.o[r] == Data(i, bn)
    && Stored(s.d, s.ino[i], t.d, t.ino[i], bn, r)
    && (t.ino[i].addrs[NDIRECT] != 0 <==> s.ino[i].addrs[NDIRECT] != 0 || bn >= NDIRECT)
    && (Addr(s.d, s.ino[i], bn) != 0 ==> t == s)
  }

  lemma GaveSame(sb: Super, s: State, i: nat, bn: nat)
    requires Inv(sb, s.d, s.ino, s.o) && i < |s.ino| && bn < MAXFILE
    ensures Addr(s.d, s.ino[i], bn) != 0 ==> BmapGave(sb, s, s, i, bn, Addr(s.d, s.ino[i], bn))
  {
    assert Holds(s.d, s.o, i, s.ino[i], 0) && HasAt(s.d, s.o, i, s.ino[i], bn);
    GrewSame(s, i);
  }

  lemma ClaimDirectGave(sb: Super, s: State, i: nat, bn: nat, b: Word)
    requires Inv(sb, s.d, s.ino, s.o) && 0 < b < sb.size && s.o[b] == Free && i < |s.ino| && bn < NDIRECT
    requires s.ino[i].addrs[bn] == 0
    ensures BitBlock(sb, b) < |s.d| && BmapGave(sb, s, DirectPut(sb, s, i, bn, b), i, bn, b)
  {
    ClaimDirect(sb, s, i, bn, b);
  }

  lemma ClaimWordGave(sb: Super, s: State, i: nat, bn: nat, b: Word)
    requires Inv(sb, s.d, s.ino, s.o) && 0 < b < sb.size && s.o[b] == Free && i < |s.ino| && NDIRECT <= bn < MAXFILE
    requires 0 < s.ino[i].addrs[NDIRECT] < |s.d| && Addr(s.d, s.ino[i], bn) == 0
    ensures BitBlock(sb, b) < |s.d| && BmapGave(sb, s, WordPut(sb, s, i, bn, b), i, bn, b)
    ensures s.ino[i].addrs[NDIRECT] != b && s.ino[i].addrs[NDIRECT] != BitBlock(sb, b)
  {
    ClaimWord(sb, s, i, bn, b);
    IndirectApart(sb, s, i, b);
  }

  /** The indirect block of a file is neither free nor part of the free-block map. */
  lemma IndirectApart(sb: Super, s: State, i: nat, b: Word)
    requires Inv(sb, s.d, s.ino, s.o) && b < sb.size && s.o[b] == Free && i < |s.ino| && s.ino[i].addrs[NDIRECT] != 0
    ensures s.ino[i].addrs[NDIRECT] != b && s.ino[i].addrs[NDIRECT] != BitBlock(sb, b)
  {
    BitBlockIsMeta(sb, s.o, b);
    assert Holds(s.d, s.o, i, s.ino[i], 0);
  }

  lemma WordJournaled(sb: Super, s: State, lg: set<nat>, i: nat, bn: nat, b: Word, x: nat)
    requires b < |s.d| && BitBlock(sb, b) < |s.d| && i < |s.ino| && NDIRECT <= bn < MAXFILE && b < |s.o|
    requires x == s.ino[i].addrs[NDIRECT] < |s.d|
    ensures Journaled(s.d, WordPut(sb, s, i, bn, b).d, lg, lg + {BitBlock(sb, b), b} + {x})
  {
    ClaimJournaled(sb, s.d, b, lg);
    JournaledPut(s.d, Claimed(sb, s.d, b), lg, lg + {BitBlock(sb, b), b}, x, PutWord(s.d[x], bn - NDIRECT, b));
  }

  /** Making the indirect block first does not show in the result. */
  lemma GaveVia(sb: Super, s: State, h: State, t: State, i: nat, bn: nat, r: nat)
    requires Grew(s, h, i) && BmapGave(sb, h, t, i, bn, r) && bn >= NDIRECT && h.ino[i].addrs[NDIRECT] != 0
    requires forall k: nat :: Addr(h.d, h.ino[i], k) == Addr(s.d, s.ino[i], k)
    requires s.ino[i].addrs[NDIRECT] != 0 ==> h == s
    ensures BmapGave(sb, s, t, i, bn, r)
  {
    GrewTrans(s, h, t, i);
  }

  /** One file's block, once mapped, is patched: the file has the chunk spliced in at `cur`. */
  lemma PatchStep(sb: Super, t: State, u: State, i: nat, cur: nat, chunk: seq<bv8>, end: nat, lim: nat, len: nat,
                  r: nat)
    requires Inv(sb, t.d, t.ino, t.o) && i < |t.ino| && InBlock(cur, end)
    requires 0 < r < |t.d| && Addr(t.d, t.ino[i], cur / BSIZE) == r && t.o[r] == Data(i, cur / BSIZE)
    requires |chunk| == end - cur && cur <= lim && Dense(t.d, t.ino[i], len)
    requires u == State(t.d[r := Patched(t.d[r], cur % BSIZE, chunk)], t.ino, t.o)
    ensures Inv(sb, u.d, u.ino, u.o) && OthersKept(t.d, u.d, t.o, i) && Dense(u.d, u.ino[i], len)
    ensures View(u.d, u.ino[i], Max(lim, end)) == Splice(View(t.d, t.ino[i], lim), cur, chunk)
  {
    OverwriteInv(sb, t, i, cur / BSIZE, r, u.d[r]);
    PatchView(t, u, i, cur, chunk, end, lim, r);
  }

  lemma PatchView(t: State, u: State, i: nat, cur: nat, chunk: seq<bv8>, end: nat, lim: nat, r: nat)
    requires i < |t.ino| && Holds(t.d, t.o, i, t.ino[i], 0) && InBlock(cur, end) && |t.d| == |t.o|
    requires 0 < r < |t.d| && Addr(t.d, t.ino[i], cur / BSIZE) == r && t.o[r] == Data(i, cur / BSIZE)
    requires |chunk| == end - cur && cur <= lim
    requires u == State(t.d[r := Patched(t.d[r], cur % BSIZE, chunk)], t.ino, t.o)
    requires forall k: nat :: Addr(u.d, t.ino[i], k) == Addr(t.d, t.ino[i], k)
    ensures View(u.d, u.ino[i], Max(lim, end)) == Splice(View(t.d, t.ino[i], lim), cur, chunk)
  {
    forall k: nat | k < MAXFILE && Addr(t.d, t.ino[i], k) == r ensures k == cur / BSIZE {
      assert HasAt(t.d, t.o, i, t.ino[i], k);
    }
    PatchedView(t.d, t.ino[i], u.d, r, cur, chunk, lim);
  }

  /** After bmap the file has the block of `cur`, and reads as before. */
  lemma MapStep(sb: Super, s0: State, s: State, t: State, i: nat, off: nat, data: seq<bv8>, cur: nat, end: nat, r: nat)
    requires Progress(sb, s0, s, i, off, data, cur) && BmapGave(sb, s, t, i, cur / BSIZE, r)
    requires InBlock(cur, end)
    ensures Dense(t.d, t.ino[i], Extent(s0.ino[i].size, end))
    ensures View(t.d, t.ino[i], Max(s0.ino[i].size, cur)) == Splice(Contents(s0.d, s0.ino[i]), off, data)
    ensures OthersKept(s0.d, t.d, s0.o, i) && OwnedKept(s0.o, t.o) && (end <= s0.ino[i].size ==> t.ino == s0.ino)
  {
    var size := s0.ino[i].size;
    MapExtent(s, t, i, size, cur, end, r);
    assert Holds(s.d, s.o, i, s.ino[i], 0);
    GrownView(s, t, i, Extent(size, cur), Max(size, cur));
    OthersTrans(s0, s, t.d, i);
  }

  lemma MapExtent(s: State, t: State, i: nat, size: nat, cur: nat, end: nat, r: nat)
    requires i < |s.ino| == |t.ino| && Dense(s.d, s.ino[i], Extent(size, cur)) && r != 0
    requires Stored(s.d, s.ino[i], t.d, t.ino[i], cur / BSIZE, r)
    requires t.ino[i].addrs[NDIRECT] != 0 <==> s.ino[i].addrs[NDIRECT] != 0 || cur / BSIZE >= NDIRECT
    requires InBlock(cur, end)
    ensures Dense(t.d, t.ino[i], Extent(size, end)) && Max(size, cur) <= Extent(size, cur) * BSIZE
    ensures end <= size ==> Addr(s.d, s.ino[i], cur / BSIZE) != 0
  {
    ExtentStep(size, cur, end);
    GrownDense(s.d, s.ino[i], t.d, t.ino[i], Extent(size, cur), cur / BSIZE, r);
  }

  lemma StepProgress(sb: Super, s0: State, s: State, t: State, u: State, i: nat, off: nat, data: seq<bv8>,
                     chunk: seq<bv8>, cur: nat, end: nat, r: nat)
    requires Progress(sb, s0, s, i, off, data, cur) && BmapGave(sb, s, t, i, cur / BSIZE, r)
    requires InBlock(cur, end) && |chunk| == end - cur
    requires u == State(t.d[r := Patched(t.d[r], cur % BSIZE, chunk)], t.ino, t.o)
    ensures Progress(sb, s0, u, i, off, data + chunk, end)
  {
    var size := s0.ino[i].size;
    var c := Contents(s0.d, s0.ino[i]);
    MapStep(sb, s0, s, t, i, off, data, cur, end, r);
    var v := View(t.d, t.ino[i], Max(size, cur));
    PatchStep(sb, t, u, i, cur, chunk, end, Max(size, cur), Extent(size, end), r);
    OthersTrans(s0, t, u.d, i);
    ViewStep(u.d, u.ino[i], size, v, c, off, data, chunk, cur, end);
  }

  lemma ViewStep(d: Disk, n: Inode, size: nat, v: seq<bv8>, c: seq<bv8>, off: nat, data: seq<bv8>, chunk: seq<bv8>,
                 cur: nat, end: nat)
    requires off <= |c| && cur == off + |data| && end == cur + |chunk| && v == Splice(c, off, data) && cur <= |v|
    requires View(d, n, Max(Max(size, cur), end)) == Splice(v, cur, chunk)
    ensures View(d, n, Max(size, end)) == Splice(c, off, data + chunk)
  {
    SpliceMore(c, off, data, chunk);
  }

  /** The size update that ends writei. */
  lemma FinishProgress(sb: Super, s0: State, s: State, i: nat, off: nat, data: seq<bv8>, end: nat, n': Inode)
    requires Progress(sb, s0, s, i, off, data, end) && end <= MAXSIZE && AllHold(s0.d, s0.o, s0.ino)
    requires FilesOk(s0.d, s0.ino) && s0.ino[i].kind != 0
    requires n' == s.ino[i].(size := Max(s0.ino[i].size, end))
    ensures Inv(sb, s.d, s.ino[i := n'], s.o) && FilesOk(s.d, s.ino[i := n'])
    ensures Contents(s.d, n') == Splice(Contents(s0.d, s0.ino[i]), off, data)
    ensures OthersSame(s0, State(s.d, s.ino[i := n'], s.o), i)
  {
    Resized(sb, s, i, n');
    forall k: nat ensures Addr(s.d, n', k) == Addr(s.d, s.ino[i], k) {
    }
    assert Dense(s.d, n', BlocksFor(n'.size));
    assert FileOk(s0.d, s0.ino[i]);
    ViewSame(s.d, s.ino[i], s.d, n', n'.size);
    OthersStay(s0, State(s.d, s.ino[i := n'], s.o), i);
  }

  // ----- how much is logged -----

  /** How many blocks of the file the bytes from `off` to `end` touch. */
  ghost function Touched(off: nat, end: nat): (k: nat)
    requires off <= end
  {
    if off == end then 0 else (end - 1) / BSIZE - off / BSIZE + 1
  }

  /** The blocks allocated while a file grows from `len` to `len'` blocks, with the indirect block. */
  ghost function Gained(len: nat, len': nat): (k: nat)
    requires len <= len'
  {
    len' - len + (if len <= NDIRECT < len' then 1 else 0)
  }

  /** Data blocks, one bitmap block for each allocation, the indirect block and the inode block. */
  ghost function Cost(size: nat, off: nat, n: nat): (k: nat) {
    Touched(off, off + n) + Gained(BlocksFor(size), Extent(size, off + n)) + 2
  }

  lemma GainedStep(d: Disk, n: Inode, size: nat, cur: nat, end: nat)
    requires InBlock(cur, end) && Dense(d, n, Extent(size, cur))
    ensures BlocksFor(size) <= Extent(size, cur) <= Extent(size, end)
    ensures Gained(BlocksFor(size), Extent(size, cur)) + Allocations(d, n, cur / BSIZE)
            <= Gained(BlocksFor(size), Extent(size, end))
  {
    ExtentStep(size, cur, end);
  }

  /** Whole blocks after the first round: each round touches one block more. */
  lemma TouchedStep(off: nat, cur: nat, end: nat)
    requires InBlock(cur, end) && off <= cur && (cur == off || cur % BSIZE == 0)
    ensures Touched(off, end) == Touched(off, cur) + 1
  {
  }

  /**
   The chunk size of filewrite.  At most CHUNK bytes at an offset inside the file log at most
   MAXOPBLOCKS blocks, whatever the offset and wherever the allocator finds its blocks.
   */
  lemma ChunkFits(size: nat, off: nat, tot: nat)
    requires off <= size && tot <= CHUNK
    ensures Cost(size, off, tot) <= MAXOPBLOCKS
  {
    assert BlocksFor(off) <= BlocksFor(size);
    assert Extent(size, off + tot) - BlocksFor(size) <= BlocksFor(off + tot) - BlocksFor(off);
    if off % BSIZE == 0 {
      assert Touched(off, off + tot) <= 3;
      assert BlocksFor(off + tot) - BlocksFor(off) <= 3;
    } else {
      assert Touched(off, off + tot) <= 4;
      assert BlocksFor(off + tot) - BlocksFor(off) <= 3;
    }
  }

  /** It is the largest one: with one byte more, the bound for a file of twelve blocks exceeds MAXOPBLOCKS. */
  lemma ChunkFitsIff(tot: nat)
    ensures (forall size: nat, off: nat :: off <= size ==> Cost(size, off, tot) <= MAXOPBLOCKS) <==> tot <= CHUNK
  {
    if tot <= CHUNK {
      forall size: nat, off: nat | off <= size ensures Cost(size, off, tot) <= MAXOPBLOCKS {
        ChunkFits(size, off, tot);
      }
    } else {
      var off := NDIRECT * BSIZE;
      assert Touched(off, off + tot) >= 4 && BlocksFor(off + tot) >= NDIRECT + 4;
      assert Cost(off, off, tot) > MAXOPBLOCKS;
    }
  }
}
