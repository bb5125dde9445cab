/**
 Which block belongs to whom.  `Inv` says that the free-block map marks exactly the metadata and
 the blocks some inode reaches, and that every reached block has one owner.
 */
module Ownership {
  import opened Numbers
  import opened Blocks

  const NDIRECT: nat := 12
  const MAXFILE: nat := 140
  const IPB: nat := 8

  /** The layout read from the super block; the data blocks begin behind the free-block map. */
  datatype Super = Super(size: nat, ninodes: nat, inodestart: nat, bmapstart: nat, datastart: nat) {
    ghost predicate Valid() {
      && 0 < inodestart && inodestart + ninodes / IPB + 1 <= bmapstart
      && bmapstart + size / BPB + 1 <= datastart <= size < 0x8000_0000
    }
  }

  type Addrs = s: seq<Word> | |s| == NDIRECT + 1 witness seq(NDIRECT + 1, _ => 0)

  function NoAddrs(): (a: Addrs) {
    seq(NDIRECT + 1, _ => 0)
  }

  type Short = x: int | 0 <= x < 0x1_0000

  /** An inode; its type is called `kind` here. */
  datatype Inode = Inode(kind: Short, major: Short, minor: Short, nlink: Short, size: Word, addrs: Addrs)

  /** `Inodes` are the blocks of the inode table, `Meta` the rest of the metadata. */
  datatype Owner = Free | Meta | Inodes | Data(inum: nat, bn: nat) | Indirect(inum: nat)

  type Owners = seq<Owner>

  ghost predicate Reached(w: Owner) {
    w.Data? || w.Indirect?
  }

  function BitBlock(sb: Super, b: nat): (r: nat) {
    b / BPB + sb.bmapstart
  }

  function InodeBlock(sb: Super, inum: nat): (b: nat) {
    inum / IPB + sb.inodestart
  }

  predicate InUse(sb: Super, d: Disk, b: nat) {
    BitBlock(sb, b) < |d| && HasBit(d[BitBlock(sb, b)], b % BPB)
  }

  /** The disk block that holds block `bn` of a file, 0 when there is none. */
  function Addr(d: Disk, n: Inode, bn: nat): (b: nat) {
    if bn < NDIRECT then n.addrs[bn]
    else if bn < MAXFILE && 0 < n.addrs[NDIRECT] < |d| then GetWord(d[n.addrs[NDIRECT]], bn - NDIRECT)
    else 0
  }

  ghost predicate MapOk(sb: Super, d: Disk, o: Owners)
    requires sb.size <= |o|
  {
    forall b :: 0 <= b < sb.size ==> (InUse(sb, d, b) <==> o[b] != Free)
  }

  ghost predicate MetaOk(sb: Super, o: Owners)
    requires sb.size <= |o|
  {
    forall b :: 0 <= b < sb.size ==>
      (o[b].Inodes? <==> sb.inodestart <= b < sb.bmapstart) && (o[b].Meta? || o[b].Inodes? <==> b < sb.datastart)
  }

  ghost predicate HasAt(d: Disk, o: Owners, i: nat, n: Inode, bn: nat) {
    var a := Addr(d, n, bn);
    a != 0 ==> a < |o| && o[a] == Data(i, bn)
  }

  /** The inode owns the blocks it reaches, from block `from` of the file on. */
  ghost predicate Holds(d: Disk, o: Owners, i: nat, n: Inode, from: nat) {
    && (n.addrs[NDIRECT] != 0 ==> n.addrs[NDIRECT] < |o| && o[n.addrs[NDIRECT]] == Indirect(i))
    && forall bn: nat :: from <= bn < MAXFILE ==> HasAt(d, o, i, n, bn)
  }

  ghost predicate AllHold(d: Disk, o: Owners, ino: seq<Inode>) {
    forall i: nat :: i < |ino| ==> Holds(d, o, i, ino[i], 0)
  }

  ghost predicate BackAt(d: Disk, ino: seq<Inode>, w: Owner, b: nat) {
    match w
    case Data(i, bn) => i < |ino| && bn < MAXFILE && Addr(d, ino[i], bn) == b
    case Indirect(i) => i < |ino| && ino[i].addrs[NDIRECT] == b
    case _ => true
  }

  /** The owner of every block but `x` does reach it. */
  ghost predicate Back(d: Disk, ino: seq<Inode>, o: Owners, x: nat) {
    forall b: nat :: b < |o| && b != x ==> BackAt(d, ino, o[b], b)
  }

  ghost predicate Sized(sb: Super, d: Disk, ino: seq<Inode>, o: Owners) {
    sb.Valid() && |d| == |o| == sb.size && |ino| == sb.ninodes
  }

  ghost predicate Inv(sb: Super, d: Disk, ino: seq<Inode>, o: Owners) {
    Sized(sb, d, ino, o) && MapOk(sb, d, o) && MetaOk(sb, o) && AllHold(d, o, ino) && Back(d, ino, o, 0)
  }

  // ----- what the invariant says about the bitmap and about sharing -----

  /** Block `b` is block `bn` of file `i`, or its indirect block. */
  ghost predicate Reaches(d: Disk, n: Inode, b: nat) {
    b == n.addrs[NDIRECT] || exists bn: nat :: bn < MAXFILE && Addr(d, n, bn) == b
  }

  /** A block is marked in use exactly when it is metadata or some inode reaches it. */
  lemma InUseIff(sb: Super, d: Disk, ino: seq<Inode>, o: Owners, b: nat)
    requires Inv(sb, d, ino, o) && b < sb.size
    ensures InUse(sb, d, b) <==> b < sb.datastart || exists i: nat :: i < |ino| && Reaches(d, ino[i], b)
  {
    if InUse(sb, d, b) && b >= sb.datastart {
      assert Reached(o[b]);
      assert BackAt(d, ino, o[b], b);
      assert Reaches(d, ino[o[b].inum], b);
    }
    if b >= sb.datastart && exists i: nat :: i < |ino| && Reaches(d, ino[i], b) {
      var i: nat :| i < |ino| && Reaches(d, ino[i], b);
      ReachedOwner(sb, d, ino, o, i, b);
    }
  }

  lemma ReachedOwner(sb: Super, d: Disk, ino: seq<Inode>, o: Owners, i: nat, b: nat)
    requires Inv(sb, d, ino, o) && i < |ino| && Reaches(d, ino[i], b) && 0 < b
    ensures b < sb.size && Reached(o[b]) && o[b].inum == i
  {
    assert Holds(d, o, i, ino[i], 0);
    if b != ino[i].addrs[NDIRECT] {
      var bn: nat :| bn < MAXFILE && Addr(d, ino[i], bn) == b;
      assert HasAt(d, o, i, ino[i], bn);
    }
  }

  /** No block has two owners: two files, two places in one file, or data and indirect block. */
  lemma OwnedOnce(sb: Super, d: Disk, ino: seq<Inode>, o: Owners, i: nat, bn: nat, j: nat, bm: nat)
    requires Inv(sb, d, ino, o) && i < |ino| && j < |ino| && bn < MAXFILE && bm < MAXFILE
    requires Addr(d, ino[i], bn) != 0
    ensures Addr(d, ino[i], bn) == Addr(d, ino[j], bm) ==> i == j && bn == bm
    ensures Addr(d, ino[i], bn) != ino[j].addrs[NDIRECT]
    ensures ino[i].addrs[NDIRECT] == ino[j].addrs[NDIRECT] != 0 ==> i == j
    ensures sb.datastart <= Addr(d, ino[i], bn) < sb.size
  {
    assert Holds(d, o, i, ino[i], 0) && Holds(d, o, j, ino[j], 0);
    assert HasAt(d, o, i, ino[i], bn) && HasAt(d, o, j, ino[j], bm);
  }

  // ----- frames -----

  /** Indirect blocks hold what they held. */
  ghost predicate IndirectKept(d: Disk, d': Disk, o: Owners) {
    |d'| == |d| == |o| && forall b: nat :: b < |o| && o[b].Indirect? ==> d'[b] == d[b]
  }

  ghost predicate OwnedKept(o: Owners, o': Owners) {
    |o'| == |o| && forall b: nat :: b < |o| && (Reached(o[b]) || o[b].Inodes?) ==> o'[b] == o[b]
  }

  lemma AddrKept(d: Disk, d': Disk, o: Owners, i: nat, n: Inode, bn: nat)
    requires IndirectKept(d, d', o)
    requires n.addrs[NDIRECT] != 0 ==> n.addrs[NDIRECT] < |o| && o[n.addrs[NDIRECT]] == Indirect(i)
    ensures Addr(d', n, bn) == Addr(d, n, bn)
  {
  }

  lemma HoldsKept(d: Disk, d': Disk, o: Owners, o': Owners, i: nat, n: Inode)
    requires IndirectKept(d, d', o) && OwnedKept(o, o') && Holds(d, o, i, n, 0)
    ensures Holds(d', o', i, n, 0)
  {
    forall bn: nat | bn < MAXFILE ensures HasAt(d', o', i, n, bn) {
      AddrKept(d, d', o, i, n, bn);
      assert HasAt(d, o, i, n, bn);
    }
  }

  lemma AllHoldKept(d: Disk, d': Disk, o: Owners, o': Owners, ino: seq<Inode>)
    requires IndirectKept(d, d', o) && OwnedKept(o, o') && AllHold(d, o, ino)
    ensures AllHold(d', o', ino)
  {
    forall i: nat | i < |ino| ensures Holds(d', o', i, ino[i], 0) {
      HoldsKept(d, d', o, o', i, ino[i]);
    }
  }

  lemma BackKept(d: Disk, d': Disk, o: Owners, o': Owners, ino: seq<Inode>, x: nat)
    requires IndirectKept(d, d', o) && |o'| == |o| && AllHold(d, o, ino) && Back(d, ino, o, 0)
    requires forall b: nat :: b < |o| && b != x && Reached(o'[b]) ==> o'[b] == o[b] && b != 0
    ensures Back(d', ino, o', x)
  {
    forall b: nat | b < |o'| && b != x ensures BackAt(d', ino, o'[b], b) {
      if Reached(o'[b]) {
        assert BackAt(d, ino, o[b], b);
        var i := o[b].inum;
        assert Holds(d, o, i, ino[i], 0);
        if o[b].Data? {
          AddrKept(d, d', o, i, ino[i], o[b].bn);
        }
      }
    }
  }

  // ----- what is handed to the log -----

  /** Every block that changed was handed to log_write. */
  ghost predicate Journaled(d: Disk, d': Disk, lg: set<nat>, lg': set<nat>) {
    |d'| == |d| && lg <= lg' && forall b: nat :: b < |d| && d'[b] != d[b] ==> b in lg'
  }

  lemma JournaledTrans(d: Disk, d1: Disk, d2: Disk, lg: set<nat>, lg1: set<nat>, lg2: set<nat>)
    requires Journaled(d, d1, lg, lg1) && Journaled(d1, d2, lg1, lg2)
    ensures Journaled(d, d2, lg, lg2)
  {
  }

  lemma JournaledPut(d: Disk, d1: Disk, lg: set<nat>, lg1: set<nat>, x: nat, v: Block)
    requires Journaled(d, d1, lg, lg1) && x < |d1|
    ensures Journaled(d, d1[x := v], lg, lg1 + {x})
  {
  }

  lemma ClaimJournaled(sb: Super, d: Disk, b: nat, lg: set<nat>)
    requires BitBlock(sb, b) < |d| && b < |d|
    ensures Journaled(d, Claimed(sb, d, b), lg, lg + {BitBlock(sb, b), b})
  {
  }

  /** The blocks of the free-block map. */
  ghost function MapBlocks(sb: Super): (r: set<nat>)
    ensures |r| == sb.size / BPB + 1
    ensures forall b: nat :: b < sb.size ==> BitBlock(sb, b) in r
  {
    Range(sb.bmapstart, sb.size / BPB + 1)
  }

  /** Only blocks of the free-block map have been logged, and only logged blocks have changed. */
  ghost predicate MapJournaled(sb: Super, d: Disk, d': Disk, lg: set<nat>, lg': set<nat>) {
    Journaled(d, d', lg, lg') && lg' <= lg + MapBlocks(sb)
  }

  lemma MapJournaledTrans(sb: Super, d: Disk, d1: Disk, d2: Disk, lg: set<nat>, lg1: set<nat>, lg2: set<nat>)
    requires MapJournaled(sb, d, d1, lg, lg1) && MapJournaled(sb, d1, d2, lg1, lg2)
    ensures MapJournaled(sb, d, d2, lg, lg2)
  {
  }

  lemma ReleaseJournaled(sb: Super, d: Disk, b: nat, lg: set<nat>)
    requires BitBlock(sb, b) < |d| && b < sb.size
    ensures MapJournaled(sb, d, Released(sb, d, b), lg, lg + {BitBlock(sb, b)})
  {
  }

  // ----- balloc -----

  function Claimed(sb: Super, d: Disk, b: nat): (r: Disk)
    requires BitBlock(sb, b) < |d| && b < |d|
  {
    d[BitBlock(sb, b) := WithBit(d[BitBlock(sb, b)], b % BPB)][b := Zeroes()]
  }

  lemma BitBlockIsMeta(sb: Super, o: Owners, b: nat)
    requires sb.Valid() && |o| == sb.size && MetaOk(sb, o) && b < sb.size
    ensures BitBlock(sb, b) < sb.datastart && o[BitBlock(sb, b)] == Meta
  {
  }

  lemma ClaimMap(sb: Super, d: Disk, o: Owners, b: nat, who: Owner)
    requires sb.Valid() && |d| == |o| == sb.size && MapOk(sb, d, o) && MetaOk(sb, o)
    requires b < sb.size && o[b] == Free && Reached(who)
    ensures BitBlock(sb, b) < sb.size
    ensures MapOk(sb, Claimed(sb, d, b), o[b := who]) && MetaOk(sb, o[b := who])
  {
    BitBlockIsMeta(sb, o, b);
    var d', o' := Claimed(sb, d, b), o[b := who];
    forall c | 0 <= c < sb.size ensures InUse(sb, d', c) <==> o'[c] != Free {
      BitBlockIsMeta(sb, o, c);
      SetBitAt(sb, d, b, c);
    }
  }

  lemma SetBitAt(sb: Super, d: Disk, b: nat, c: nat)
    requires b < |d| && c < |d| && BitBlock(sb, b) < |d| && BitBlock(sb, c) < |d| && b != BitBlock(sb, c)
    ensures InUse(sb, Claimed(sb, d, b), c) <==> b == c || InUse(sb, d, c)
  {
    WithBitAt(d[BitBlock(sb, b)], b % BPB, c % BPB);
  }

  lemma ClaimRest(sb: Super, d: Disk, ino: seq<Inode>, o: Owners, b: nat, who: Owner)
    requires Inv(sb, d, ino, o) && b < sb.size && o[b] == Free && Reached(who)
    ensures BitBlock(sb, b) < sb.size
    ensures AllHold(Claimed(sb, d, b), o[b := who], ino) && Back(Claimed(sb, d, b), ino, o[b := who], b)
  {
    BitBlockIsMeta(sb, o, b);
    var d', o' := Claimed(sb, d, b), o[b := who];
    assert IndirectKept(d, d', o);
    AllHoldKept(d, d', o, o', ino);
    BackKept(d, d', o, o', ino, b);
  }

  // ----- bfree -----

  function Released(sb: Super, d: Disk, b: nat): (r: Disk)
    requires BitBlock(sb, b) < |d|
  {
    d[BitBlock(sb, b) := WithoutBit(d[BitBlock(sb, b)], b % BPB)]
  }

  lemma ReleaseMap(sb: Super, d: Disk, o: Owners, b: nat)
    requires sb.Valid() && |d| == |o| == sb.size && MapOk(sb, d, o) && MetaOk(sb, o)
    requires b < sb.size && Reached(o[b])
    ensures BitBlock(sb, b) < sb.size
    ensures MapOk(sb, Released(sb, d, b), o[b := Free]) && MetaOk(sb, o[b := Free])
  {
    BitBlockIsMeta(sb, o, b);
    var d', o' := Released(sb, d, b), o[b := Free];
    forall c | 0 <= c < sb.size ensures InUse(sb, d', c) <==> o'[c] != Free {
      BitBlockIsMeta(sb, o, c);
      WithoutBitAt(d[BitBlock(sb, b)], b % BPB, c % BPB);
    }
  }

  // ----- storing an address -----

  /** Changing an inode and its indirect block gave it block `bn` at `b`, and nothing else. */
  ghost predicate Stored(d: Disk, n: Inode, d': Disk, n': Inode, bn: nat, b: nat) {
    forall k: nat {:trigger Addr(d', n', k)} :: k < MAXFILE ==> Addr(d', n', k) == if k == bn then b else Addr(d, n, k)
  }

  /** Neither the inode table nor a block of a file other than `i` has changed. */
  ghost predicate OthersKept(d: Disk, d': Disk, o: Owners, i: nat) {
    |d'| == |d| == |o| && forall b: nat :: b < |o| && Foreign(o[b], i) ==> d'[b] == d[b]
  }

  ghost predicate Foreign(w: Owner, i: nat) {
    w.Inodes? || (Reached(w) && w.inum != i)
  }

  lemma OtherAddr(d: Disk, d': Disk, o: Owners, i: nat, j: nat, n: Inode, bn: nat)
    requires OthersKept(d, d', o, i) && j != i
    requires n.addrs[NDIRECT] != 0 ==> n.addrs[NDIRECT] < |o| && o[n.addrs[NDIRECT]] == Indirect(j)
    ensures Addr(d', n, bn) == Addr(d, n, bn)
  {
  }

  lemma OtherHolds(d: Disk, d': Disk, o: Owners, i: nat, j: nat, n: Inode)
    requires OthersKept(d, d', o, i) && j != i && Holds(d, o, j, n, 0)
    ensures Holds(d', o, j, n, 0)
  {
    forall bn: nat | bn < MAXFILE ensures HasAt(d', o, j, n, bn) {
      OtherAddr(d, d', o, i, j, n, bn);
      assert HasAt(d, o, j, n, bn);
    }
  }

  lemma StoreHolds(d: Disk, d': Disk, o: Owners, i: nat, n: Inode, n': Inode, bn: nat, b: nat)
    requires Holds(d, o, i, n, 0) && b < |o| && o[b] == Data(i, bn)
    requires Stored(d, n, d', n', bn, b) && n'.addrs[NDIRECT] == n.addrs[NDIRECT]
    ensures Holds(d', o, i, n', 0)
  {
    forall k: nat | k < MAXFILE ensures HasAt(d', o, i, n', k) {
      assert HasAt(d, o, i, n, k);
    }
  }

  lemma StoreKeeps(d: Disk, d': Disk, ino: seq<Inode>, o: Owners, i: nat, n': Inode, bn: nat, b: nat)
    requires AllHold(d, o, ino) && Back(d, ino, o, b) && i < |ino| && bn < MAXFILE && 0 < b < |o| && o[b] == Data(i, bn)
    requires OthersKept(d, d', o, i) && Stored(d, ino[i], d', n', bn, b)
    requires n'.addrs[NDIRECT] == ino[i].addrs[NDIRECT] && Addr(d, ino[i], bn) == 0 && !Reached(o[0])
    ensures AllHold(d', o, ino[i := n']) && Back(d', ino[i := n'], o, 0)
  {
    var ino' := ino[i := n'];
    forall j: nat | j < |ino'| ensures Holds(d', o, j, ino'[j], 0) {
      assert Holds(d, o, j, ino[j], 0);
      if j == i {
        StoreHolds(d, d', o, i, ino[i], n', bn, b);
      } else {
        OtherHolds(d, d', o, i, j, ino[j]);
      }
    }
    forall c: nat | c < |o| && c != 0 ensures BackAt(d', ino', o[c], c) {
      StoreBack(d, d', ino, o, i, n', bn, b, c);
    }
  }

  lemma StoreBack(d: Disk, d': Disk, ino: seq<Inode>, o: Owners, i: nat, n': Inode, bn: nat, b: nat, c: nat)
    requires AllHold(d, o, ino) && Back(d, ino, o, b) && i < |ino| && bn < MAXFILE && 0 < b < |o| && o[b] == Data(i, bn)
    requires OthersKept(d, d', o, i) && Stored(d, ino[i], d', n', bn, b)
    requires n'.addrs[NDIRECT] == ino[i].addrs[NDIRECT] && Addr(d, ino[i], bn) == 0 && 0 < c < |o|
    ensures BackAt(d', ino[i := n'], o[c], c)
  {
    if c == b {
      assert Addr(d', n', bn) == b;
    } else if Reached(o[c]) {
      assert BackAt(d, ino, o[c], c);
      var j := o[c].inum;
      assert Holds(d, o, j, ino[j], 0);
      if o[c].Data? {
        if j == i {
          assert Addr(d', n', o[c].bn) == Addr(d, ino[i], o[c].bn);
        } else {
          OtherAddr(d, d', o, i, j, ino[j], o[c].bn);
        }
      }
    }
  }

  /** A fresh, zeroed indirect block changes no address. */
  lemma NewIndirect(d: Disk, ino: seq<Inode>, o: Owners, i: nat, n': Inode, b: nat)
    requires AllHold(d, o, ino) && Back(d, ino, o, b) && i < |ino| && 0 < b < |o| == |d| && o[b] == Indirect(i)
             && d[b] == Zeroes()
    requires ino[i].addrs[NDIRECT] == 0 && n'.addrs[NDIRECT] == b && n'.addrs[..NDIRECT] == ino[i].addrs[..NDIRECT]
    ensures AllHold(d, o, ino[i := n']) && Back(d, ino[i := n'], o, 0)
    ensures forall k: nat :: Addr(d, n', k) == Addr(d, ino[i], k)
  {
    var ino' := ino[i := n'];
    forall k: nat ensures Addr(d, n', k) == Addr(d, ino[i], k) {
      if NDIRECT <= k < MAXFILE {
        ZeroesAt(k - NDIRECT);
      } else if k < NDIRECT {
        assert n'.addrs[..NDIRECT][k] == ino[i].addrs[..NDIRECT][k];
      }
    }
    assert Holds(d, o, i, ino[i], 0);
    forall bn: nat | bn < MAXFILE ensures HasAt(d, o, i, n', bn) {
      assert HasAt(d, o, i, ino[i], bn);
    }
    forall j: nat | j < |ino'| ensures Holds(d, o, j, ino'[j], 0) {
      assert Holds(d, o, j, ino[j], 0);
    }
    forall c: nat | c < |o| && c != 0 ensures BackAt(d, ino', o[c], c) {
      assert c != b ==> BackAt(d, ino, o[c], c);
    }
  }

  lemma DirectStored(d: Disk, n: Inode, bn: nat, b: Word)
    requires bn < NDIRECT
    ensures Stored(d, n, d, n.(addrs := n.addrs[bn := b]), bn, b)
  {
  }

  lemma WordStored(d: Disk, n: Inode, bn: nat, b: Word)
    requires NDIRECT <= bn < MAXFILE && 0 < n.addrs[NDIRECT] < |d|
    ensures Stored(d, n, d[n.addrs[NDIRECT] := PutWord(d[n.addrs[NDIRECT]], bn - NDIRECT, b)], n, bn, b)
  {
    var x := n.addrs[NDIRECT];
    var d' := d[x := PutWord(d[x], bn - NDIRECT, b)];
    forall k: nat | k < MAXFILE ensures Addr(d', n, k) == if k == bn then b else Addr(d, n, k) {
      if NDIRECT <= k {
        PutWordAt(d[x], bn - NDIRECT, b, k - NDIRECT);
      }
    }
  }
}
