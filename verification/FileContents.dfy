/**
 The bytes of a file.  A file of `size` bytes has exactly the blocks that hold them, and reading and
 writing block by block is slicing and splicing one sequence of bytes.
 */
module FileContents {
  import opened Numbers
  import opened Blocks
  import opened Ownership
  import opened Growth

  const MAXSIZE: nat := MAXFILE * BSIZE

  function BlocksFor(size: nat): (n: nat) {
    (size + BSIZE - 1) / BSIZE
  }

  /** The file has the first `len` blocks and no others, and an indirect block only if it needs one. */
  ghost predicate Dense(d: Disk, n: Inode, len: nat) {
    && len <= MAXFILE
    && (n.addrs[NDIRECT] != 0 <==> len > NDIRECT)
    && forall k: nat :: k < MAXFILE ==> (Addr(d, n, k) != 0 <==> k < len)
  }

  ghost predicate FileOk(d: Disk, n: Inode) {
    n.size <= MAXSIZE && Dense(d, n, BlocksFor(n.size)) && (n.kind == 0 ==> n.size == 0)
  }

  ghost predicate FilesOk(d: Disk, ino: seq<Inode>) {
    forall i: nat :: i < |ino| ==> FileOk(d, ino[i])
  }

  function ByteAt(d: Disk, n: Inode, p: nat): (b: bv8) {
    var a := Addr(d, n, p / BSIZE);
    if 0 < a < |d| then d[a][p % BSIZE] else 0
  }

  /** The first `lim` bytes of a file. */
  function View(d: Disk, n: Inode, lim: nat): (v: seq<bv8>)
    ensures |v| == lim
  {
    seq(lim, p requires 0 <= p < lim => ByteAt(d, n, p))
  }

  function Contents(d: Disk, n: Inode): (s: seq<bv8>) {
    View(d, n, n.size)
  }

  /** `s` with `t` written over it at `at`. */
  function Splice<T>(s: seq<T>, at: nat, t: seq<T>): (r: seq<T>)
    requires at <= |s|
    ensures |r| == Max(|s|, at + |t|)
  {
    s[..at] + t + (if at + |t| < |s| then s[at + |t|..] else [])
  }

  lemma SpliceMore<T>(s: seq<T>, at: nat, t: seq<T>, u: seq<T>)
    requires at <= |s|
    ensures at + |t| <= |Splice(s, at, t)| && Splice(Splice(s, at, t), at + |t|, u) == Splice(s, at, t + u)
  {
  }

  lemma SpliceNone<T>(s: seq<T>, at: nat)
    requires at <= |s|
    ensures Splice(s, at, []) == s
  {
  }

  lemma ViewSame(d: Disk, n: Inode, d': Disk, n': Inode, lim: nat)
    requires forall p: nat :: p < lim ==> ByteAt(d', n', p) == ByteAt(d, n, p)
    ensures View(d', n', lim) == View(d, n, lim)
  {
  }

  // ----- bmap and the contents -----

  lemma GrownDense(d: Disk, n: Inode, d': Disk, n': Inode, len: nat, bn: nat, r: nat)
    requires Dense(d, n, len) && bn <= len && bn < MAXFILE && r != 0 && Stored(d, n, d', n', bn, r)
    requires n'.addrs[NDIRECT] != 0 <==> n.addrs[NDIRECT] != 0 || bn >= NDIRECT
    ensures Dense(d', n', Max(len, bn + 1))
  {
  }

  lemma GrownView(s: State, s': State, i: nat, len: nat, lim: nat)
    requires Grew(s, s', i) && |s.d| == |s.o| && Holds(s.d, s.o, i, s.ino[i], 0)
    requires Dense(s.d, s.ino[i], len) && lim <= len * BSIZE
    ensures View(s'.d, s'.ino[i], lim) == View(s.d, s.ino[i], lim)
  {
    forall p: nat | p < lim ensures ByteAt(s'.d, s'.ino[i], p) == ByteAt(s.d, s.ino[i], p) {
      assert p / BSIZE < len;
      assert HasAt(s.d, s.o, i, s.ino[i], p / BSIZE);
    }
    ViewSame(s.d, s.ino[i], s'.d, s'.ino[i], lim);
  }

  /** A file whose blocks are unchanged reads the same. */
  lemma SameFile(d: Disk, d': Disk, o: Owners, j: nat, n: Inode)
    requires |d'| == |d| == |o| && Holds(d, o, j, n, 0)
    requires forall b: nat :: b < |o| && Reached(o[b]) && o[b].inum == j ==> d'[b] == d[b]
    ensures Contents(d', n) == Contents(d, n)
    ensures FileOk(d, n) ==> FileOk(d', n)
  {
    forall k: nat ensures Addr(d', n, k) == Addr(d, n, k) {
    }
    forall p: nat | p < n.size ensures ByteAt(d', n, p) == ByteAt(d, n, p) {
      if p / BSIZE < MAXFILE {
        assert HasAt(d, o, j, n, p / BSIZE);
      }
    }
    ViewSame(d, n, d', n, n.size);
  }

  /** Files other than `i` are not affected by what happens to file `i`. */
  lemma OtherContents(s: State, s': State, i: nat, j: nat)
    requires OthersKept(s.d, s'.d, s.o, i) && j < |s.ino| && j != i && Holds(s.d, s.o, j, s.ino[j], 0)
    ensures Contents(s'.d, s.ino[j]) == Contents(s.d, s.ino[j])
    ensures FileOk(s.d, s.ino[j]) ==> FileOk(s'.d, s.ino[j])
  {
    SameFile(s.d, s'.d, s.o, j, s.ino[j]);
  }

  /** Every file but `i` has the inode and the bytes it had. */
  ghost predicate OthersSame(s: State, s': State, i: nat) {
    && |s'.ino| == |s.ino|
    && forall j: nat :: j < |s.ino| && j != i ==>
         s'.ino[j] == s.ino[j] && Contents(s'.d, s'.ino[j]) == Contents(s.d, s.ino[j])
  }

  lemma OthersStay(s: State, s': State, i: nat)
    requires AllHold(s.d, s.o, s.ino) && OthersKept(s.d, s'.d, s.o, i) && i < |s.ino| == |s'.ino|
             && s'.ino == s.ino[i := s'.ino[i]]
    ensures OthersSame(s, s', i)
    ensures FilesOk(s.d, s.ino) && FileOk(s'.d, s'.ino[i]) ==> FilesOk(s'.d, s'.ino)
  {
    forall j: nat | j < |s.ino| && j != i
      ensures Contents(s'.d, s.ino[j]) == Contents(s.d, s.ino[j]) && (FileOk(s.d, s.ino[j]) ==> FileOk(s'.d, s.ino[j]))
    {
      assert Holds(s.d, s.o, j, s.ino[j], 0);
      OtherContents(s, s', i, j);
    }
  }

  /** Changing inode `i` alone changes no other file. */
  lemma SameDisk(s: State, s': State, i: nat)
    requires s'.d == s.d && i < |s.ino| == |s'.ino| && s'.ino == s.ino[i := s'.ino[i]]
    ensures OthersSame(s, s', i)
    ensures FilesOk(s.d, s.ino) && FileOk(s'.d, s'.ino[i]) ==> FilesOk(s'.d, s'.ino)
  {
  }

  lemma EmptyFile(d: Disk, n: Inode)
    requires n.size == 0 && n.addrs == NoAddrs()
    ensures FileOk(d, n) && Contents(d, n) == []
  {
  }

  lemma NoFiles(d: Disk, ino: seq<Inode>, o: Owners)
    requires forall i :: 0 <= i < |ino| ==> ino[i].size == 0 && ino[i].addrs == NoAddrs()
    requires forall b :: 0 <= b < |o| ==> !Reached(o[b])
    ensures AllHold(d, o, ino) && Back(d, ino, o, 0) && FilesOk(d, ino)
  {
    forall i: nat | i < |ino| ensures Holds(d, o, i, ino[i], 0) && FileOk(d, ino[i]) {
      EmptyFile(d, ino[i]);
    }
  }

  /** A free inode has no blocks left, so ialloc may clear it. */
  lemma FreeIsEmpty(d: Disk, n: Inode)
    requires FileOk(d, n) && n.kind == 0
    ensures n.addrs == NoAddrs()
  {
    forall k | 0 <= k <= NDIRECT ensures n.addrs[k] == 0 {
      assert k < NDIRECT ==> Addr(d, n, k) == n.addrs[k];
    }
  }

  // ----- writing into one block -----

  lemma OverwriteInv(sb: Super, s: State, i: nat, bn: nat, a: nat, data: Block)
    requires Inv(sb, s.d, s.ino, s.o) && i < |s.ino| && bn < MAXFILE && 0 < a < |s.d| && s.o[a] == Data(i, bn)
    ensures Inv(sb, s.d[a := data], s.ino, s.o) && OthersKept(s.d, s.d[a := data], s.o, i)
    ensures forall k: nat :: Addr(s.d[a := data], s.ino[i], k) == Addr(s.d, s.ino[i], k)
  {
    var d' := s.d[a := data];
    assert IndirectKept(s.d, d', s.o);
    OverwriteMap(sb, s.d, s.o, a, data);
    AllHoldKept(s.d, d', s.o, s.o, s.ino);
    MetaZero(sb, s.o);
    BackKept(s.d, d', s.o, s.o, s.ino, 0);
    assert Holds(s.d, s.o, i, s.ino[i], 0);
    forall k: nat ensures Addr(d', s.ino[i], k) == Addr(s.d, s.ino[i], k) {
      AddrKept(s.d, d', s.o, i, s.ino[i], k);
    }
  }

  /** memmove of `chunk` to offset `x` of a block. */
  function Patched(b: Block, x: nat, chunk: seq<bv8>): (r: Block)
    requires x + |chunk| <= BSIZE
  {
    b[..x] + chunk + b[x + |chunk|..]
  }

  lemma PatchedByte(d: Disk, n: Inode, d': Disk, a: nat, cur: nat, chunk: seq<bv8>, p: nat)
    requires 0 < a < |d| && a == Addr(d, n, cur / BSIZE) && cur % BSIZE + |chunk| <= BSIZE
    requires d' == d[a := Patched(d[a], cur % BSIZE, chunk)]
    requires Addr(d', n, p / BSIZE) == Addr(d, n, p / BSIZE)
    requires Addr(d, n, p / BSIZE) == a ==> p / BSIZE == cur / BSIZE
    ensures ByteAt(d', n, p) == if cur <= p < cur + |chunk| then chunk[p - cur] else ByteAt(d, n, p)
  {
  }

  /** Writing a chunk inside the block of `cur` splices it into the file. */
  lemma PatchedView(d: Disk, n: Inode, d': Disk, a: nat, cur: nat, chunk: seq<bv8>, lim: nat)
    requires 0 < a < |d| && a == Addr(d, n, cur / BSIZE) && cur % BSIZE + |chunk| <= BSIZE && cur <= lim
    requires d' == d[a := Patched(d[a], cur % BSIZE, chunk)]
    requires forall k: nat :: Addr(d', n, k) == Addr(d, n, k)
    requires forall k: nat :: k < MAXFILE && Addr(d, n, k) == a ==> k == cur / BSIZE
    ensures View(d', n, Max(lim, cur + |chunk|)) == Splice(View(d, n, lim), cur, chunk)
  {
    var v, w := View(d', n, Max(lim, cur + |chunk|)), Splice(View(d, n, lim), cur, chunk);
    forall p: nat | p < |v| ensures v[p] == w[p] {
      PatchedByte(d, n, d', a, cur, chunk, p);
    }
  }

  // ----- reading from one block -----

  /** How many of `n` bytes at `off` a file of `size` bytes has. */
  function Clipped(off: nat, n: nat, size: nat): (r: nat)
    requires off <= size
  {
    Min(n, size - off)
  }

  lemma InsideFile(d: Disk, n: Inode, p: nat)
    requires FileOk(d, n) && p < n.size
    ensures p / BSIZE < MAXFILE && Addr(d, n, p / BSIZE) != 0
  {
  }

  function Slice(b: Block, x: nat, m: nat): (r: seq<bv8>)
    requires x + m <= BSIZE
    ensures |r| == m
  {
    b[x..x + m]
  }

  lemma BlockSlice(d: Disk, n: Inode, a: nat, cur: nat, m: nat)
    requires 0 < a < |d| && a == Addr(d, n, cur / BSIZE) && cur % BSIZE + m <= BSIZE && cur + m <= n.size
    ensures Slice(d[a], cur % BSIZE, m) == Contents(d, n)[cur..cur + m]
  {
    var x, y := Slice(d[a], cur % BSIZE, m), Contents(d, n)[cur..cur + m];
    forall q | 0 <= q < m ensures x[q] == y[q] {
      assert (cur + q) / BSIZE == cur / BSIZE && (cur + q) % BSIZE == cur % BSIZE + q;
    }
  }

  lemma SliceMore<T>(s: seq<T>, a: nat, b: nat, c: nat)
    requires a <= b <= c <= |s|
    ensures s[a..b] + s[b..c] == s[a..c]
  {
  }
}
