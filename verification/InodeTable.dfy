/**
 The inode table on disk: 64 bytes for each inode, eight inodes to a block.  An image of a disk is
 good if the inodes it holds satisfy the file-system invariants.
 */
module InodeTable {
  import opened Numbers
  import opened Blocks
  import opened Ownership
  import opened FileContents

  const DWORDS: nat := 16

  /** struct dinode as 32-bit words: four shorts, the size and the addresses. */
  function InodeWords(n: Inode): (ws: seq<Word>)
    ensures |ws| == DWORDS
  {
    [n.kind + 0x1_0000 * n.major, n.minor + 0x1_0000 * n.nlink, n.size] + n.addrs
  }

  function WordsInode(ws: seq<Word>): (n: Inode)
    requires |ws| == DWORDS
  {
    Inode(ws[0] % 0x1_0000, ws[0] / 0x1_0000, ws[1] % 0x1_0000, ws[1] / 0x1_0000, ws[2], ws[3..])
  }

  lemma InodeBack(n: Inode)
    ensures WordsInode(InodeWords(n)) == n
  {
    assert InodeWords(n)[3..] == n.addrs;
  }

  /** Inode `k` of a block of the table. */
  function GetInode(b: Block, k: nat): (n: Inode)
    requires k < IPB
  {
    WordsInode(Words(b)[DWORDS * k..DWORDS * k + DWORDS])
  }

  function PutInode(b: Block, k: nat, n: Inode): (r: Block)
    requires k < IPB
  {
    PutWords(b, DWORDS * k, InodeWords(n))
  }

  /** An inode stored reads back, and its neighbours are unchanged. */
  lemma PutInodeAt(b: Block, k: nat, n: Inode, j: nat)
    requires k < IPB && j < IPB
    ensures GetInode(PutInode(b, k, n), j) == if j == k then n else GetInode(b, j)
  {
    var ws := InodeWords(n);
    WordsPut(b, DWORDS * k, ws);
    InodeBack(n);
    SliceAt(Words(b), DWORDS * k, ws, DWORDS * j);
  }

  lemma SliceAt(s: seq<Word>, at: nat, ws: seq<Word>, lo: nat)
    requires at + |ws| <= |s| && lo + |ws| <= |s| && (lo == at || lo + |ws| <= at || at + |ws| <= lo)
    ensures (s[..at] + ws + s[at + |ws|..])[lo..lo + |ws|] == if lo == at then ws else s[lo..lo + |ws|]
  {
  }

  function InodeAt(sb: Super, d: Disk, i: nat): (n: Inode) {
    if InodeBlock(sb, i) < |d| then GetInode(d[InodeBlock(sb, i)], i % IPB)
    else Inode(0, 0, 0, 0, 0, NoAddrs())
  }

  /** The inodes a disk holds. */
  function DiskInodes(sb: Super, d: Disk): (ino: seq<Inode>)
    ensures |ino| == sb.ninodes
  {
    seq(sb.ninodes, i requires 0 <= i => InodeAt(sb, d, i))
  }

  function Updated(sb: Super, d: Disk, i: nat, n: Inode): (r: Disk)
    requires InodeBlock(sb, i) < |d|
  {
    d[InodeBlock(sb, i) := PutInode(d[InodeBlock(sb, i)], i % IPB, n)]
  }

  lemma InodeBlockOwner(sb: Super, o: Owners, i: nat)
    requires sb.Valid() && |o| == sb.size && MetaOk(sb, o) && i < sb.ninodes
    ensures InodeBlock(sb, i) < sb.size && o[InodeBlock(sb, i)].Inodes?
  {
  }

  /** iupdate changes one inode of the table. */
  lemma UpdatedInodes(sb: Super, d: Disk, i: nat, n: Inode)
    requires sb.Valid() && |d| == sb.size && i < sb.ninodes
    ensures InodeBlock(sb, i) < |d| && DiskInodes(sb, Updated(sb, d, i, n)) == DiskInodes(sb, d)[i := n]
  {
    var x, y := DiskInodes(sb, Updated(sb, d, i, n)), DiskInodes(sb, d)[i := n];
    forall j: nat | j < sb.ninodes ensures x[j] == y[j] {
      PutInodeAt(d[InodeBlock(sb, i)], i % IPB, n, j % IPB);
    }
  }

  /** While the blocks of the table are unchanged, so are the inodes. */
  lemma TableKept(sb: Super, d: Disk, d': Disk, o: Owners, i: nat)
    requires sb.Valid() && |o| == sb.size && MetaOk(sb, o) && OthersKept(d, d', o, i)
    ensures DiskInodes(sb, d') == DiskInodes(sb, d)
  {
    var x, y := DiskInodes(sb, d'), DiskInodes(sb, d);
    forall j: nat | j < sb.ninodes ensures x[j] == y[j] {
      InodeBlockOwner(sb, o, j);
    }
  }

  /** Writing to the table leaves map, owners and contents alone. */
  lemma UpdateInv(sb: Super, d: Disk, ino: seq<Inode>, o: Owners, i: nat, n: Inode)
    requires Inv(sb, d, ino, o) && i < sb.ninodes
    ensures InodeBlock(sb, i) < |d| && Inv(sb, Updated(sb, d, i, n), ino, o)
    ensures forall b: nat :: b < |o| && Reached(o[b]) ==> Updated(sb, d, i, n)[b] == d[b]
  {
    InodeBlockOwner(sb, o, i);
    var d' := Updated(sb, d, i, n);
    assert IndirectKept(d, d', o);
    AllHoldKept(d, d', o, o, ino);
    BackKept(d, d', o, o, ino, 0);
    forall c | 0 <= c < sb.size ensures InUse(sb, d', c) <==> o[c] != Free {
      BitBlockIsMeta(sb, o, c);
    }
  }

  /** Memory and disk agree on all inodes but perhaps inode `i`. */
  ghost predicate StaleAtMost(sb: Super, d: Disk, ino: seq<Inode>, i: nat) {
    i < |ino| == sb.ninodes && ino == DiskInodes(sb, d)[i := ino[i]]
  }

  /** iupdate makes memory and disk agree and changes no file. */
  lemma UpdateFiles(sb: Super, d: Disk, ino: seq<Inode>, o: Owners, i: nat)
    requires Inv(sb, d, ino, o) && FilesOk(d, ino) && StaleAtMost(sb, d, ino, i)
    ensures InodeBlock(sb, i) < |d|
    ensures var d' := Updated(sb, d, i, ino[i]);
            && Inv(sb, d', ino, o) && FilesOk(d', ino) && ino == DiskInodes(sb, d')
            && forall j: nat :: j < |ino| ==> Contents(d', ino[j]) == Contents(d, ino[j])
  {
    UpdateInv(sb, d, ino, o, i, ino[i]);
    UpdatedInodes(sb, d, i, ino[i]);
    var d' := Updated(sb, d, i, ino[i]);
    forall j: nat | j < |ino| ensures FileOk(d', ino[j]) && Contents(d', ino[j]) == Contents(d, ino[j]) {
      assert Holds(d, o, j, ino[j], 0) && FileOk(d, ino[j]);
      SameFile(d, d', o, j, ino[j]);
    }
  }

  // ----- good images -----

  /** The disk holds a file system that satisfies all invariants. */
  ghost predicate GoodImage(sb: Super, d: Disk) {
    exists o: Owners :: GoodWith(sb, d, o)
  }

  ghost predicate GoodWith(sb: Super, d: Disk, o: Owners) {
    Inv(sb, d, DiskInodes(sb, d), o) && FilesOk(d, DiskInodes(sb, d))
  }

  /** What a call of the file system does to the disk: a good image stays good, and what changes is logged. */
  ghost predicate Call(sb: Super, d: Disk, d': Disk, lg: set<nat>) {
    GoodImage(sb, d) && GoodImage(sb, d') && Journaled(d, d', {}, lg)
  }

  /** An image without files: only the metadata is marked, and every inode is free. */
  lemma EmptyImageGood(sb: Super, d: Disk)
    requires sb.Valid() && |d| == sb.size
    requires forall b: nat :: b < sb.size ==> (InUse(sb, d, b) <==> b < sb.datastart)
    requires forall i: nat :: i < sb.ninodes ==> InodeAt(sb, d, i).size == 0 && InodeAt(sb, d, i).addrs == NoAddrs()
    ensures GoodImage(sb, d)
  {
    var o := seq(sb.size, b => if sb.inodestart <= b < sb.bmapstart then Inodes
                               else if b < sb.datastart then Meta else Free);
    NoFiles(d, DiskInodes(sb, d), o);
    assert GoodWith(sb, d, o);
  }
}
