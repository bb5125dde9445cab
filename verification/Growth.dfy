/**
 How bmap makes a file grow: a free block is claimed, zeroed and recorded in the inode or in its
 indirect block, and no other block of any file is disturbed.
 */
module Growth {
  import opened Blocks
  import opened Ownership

  datatype State = State(d: Disk, ino: seq<Inode>, o: Owners)

  ghost predicate BlocksKept(d: Disk, n: Inode, d': Disk, n': Inode) {
    && |d'| == |d|
    && forall k: nat {:trigger Addr(d', n', k)} {:trigger Addr(d, n, k)} :: k < MAXFILE && 0 < Addr(d, n, k) < |d| ==>
         Addr(d', n', k) == Addr(d, n, k) && d'[Addr(d, n, k)] == d[Addr(d, n, k)]
  }

  /** Inode `i` may have gained blocks; what it had, and all other files, are as they were. */
  ghost predicate Grew(s: State, s': State, i: nat) {
    && i < |s.ino| && |s'.ino| == |s.ino| && s'.ino == s.ino[i := s'.ino[i]]
    && s'.ino[i] == s.ino[i].(addrs := s'.ino[i].addrs)
    && OthersKept(s.d, s'.d, s.o, i) && OwnedKept(s.o, s'.o) && BlocksKept(s.d, s.ino[i], s'.d, s'.ino[i])
    && (s.ino[i].addrs[NDIRECT] != 0 ==> s'.ino[i].addrs[NDIRECT] == s.ino[i].addrs[NDIRECT])
  }

  lemma GrewTrans(s: State, t: State, u: State, i: nat)
    requires Grew(s, t, i) && Grew(t, u, i)
    ensures Grew(s, u, i)
  {
  }

  ghost function NewIndirects(n: Inode): (k: nat) {
    if n.addrs[NDIRECT] == 0 then 1 else 0
  }

  lemma GrewSame(s: State, i: nat)
    requires i < |s.ino| && |s.d| == |s.o|
    ensures Grew(s, s, i)
  {
  }

  /** Claiming a free block disturbs no file. */
  lemma ClaimGrew(sb: Super, s: State, b: nat, who: Owner)
    requires Inv(sb, s.d, s.ino, s.o) && b < sb.size && s.o[b] == Free && Reached(who) && who.inum < |s.ino|
    ensures BitBlock(sb, b) < |s.d|
    ensures Grew(s, State(Claimed(sb, s.d, b), s.ino, s.o[b := who]), who.inum)
  {
    BitBlockIsMeta(sb, s.o, b);
    var i := who.inum;
    var d' := Claimed(sb, s.d, b);
    assert Holds(s.d, s.o, i, s.ino[i], 0);
    forall k: nat | k < MAXFILE && 0 < Addr(s.d, s.ino[i], k) < |s.d|
      ensures Addr(d', s.ino[i], k) == Addr(s.d, s.ino[i], k)
              && d'[Addr(s.d, s.ino[i], k)] == s.d[Addr(s.d, s.ino[i], k)]
    {
      assert HasAt(s.d, s.o, i, s.ino[i], k);
      AddrKept(s.d, d', s.o, i, s.ino[i], k);
    }
  }

  /** So does a change of the inode's addresses that keeps those it had. */
  lemma AddressedGrew(s: State, t: State, i: nat, n': Inode)
    requires Grew(s, t, i) && n' == t.ino[i].(addrs := n'.addrs)
    requires t.ino[i].addrs[NDIRECT] != 0 ==> n'.addrs[NDIRECT] == t.ino[i].addrs[NDIRECT]
    requires forall k: nat {:trigger Addr(t.d, n', k)} :: k < MAXFILE ==>
               Addr(t.d, t.ino[i], k) != 0 ==> Addr(t.d, n', k) == Addr(t.d, t.ino[i], k)
    ensures Grew(s, State(t.d, t.ino[i := n'], t.o), i)
  {
    var u := State(t.d, t.ino[i := n'], t.o);
    forall k: nat | k < MAXFILE && 0 < Addr(s.d, s.ino[i], k) < |s.d|
      ensures Addr(u.d, n', k) == Addr(s.d, s.ino[i], k)
    {
      assert Addr(t.d, t.ino[i], k) == Addr(s.d, s.ino[i], k);
    }
  }

  /** How many blocks bmap allocates: the block itself and, for the first indirect one, the indirect block. */
  ghost function Allocations(d: Disk, n: Inode, bn: nat): (k: nat) {
    (if Addr(d, n, bn) == 0 then 1 else 0) + (if bn >= NDIRECT then NewIndirects(n) else 0)
  }

  ghost function IndirectSet(n: Inode): (bs: set<nat>) {
    if n.addrs[NDIRECT] == 0 then {} else {n.addrs[NDIRECT]}
  }

  lemma UnionSize<T>(a: set<T>, b: set<T>)
    ensures |a + b| <= |a| + |b|
  {
    assert |a + b| == |a| + |b| - |a * b|;
  }

  lemma ClaimAddr(sb: Super, s: State, b: nat, who: Owner)
    requires Inv(sb, s.d, s.ino, s.o) && b < sb.size && s.o[b] == Free && Reached(who) && who.inum < |s.ino|
    ensures BitBlock(sb, b) < |s.d|
    ensures forall k: nat :: Addr(Claimed(sb, s.d, b), s.ino[who.inum], k) == Addr(s.d, s.ino[who.inum], k)
  {
    BitBlockIsMeta(sb, s.o, b);
    var i := who.inum;
    assert Holds(s.d, s.o, i, s.ino[i], 0);
    forall k: nat ensures Addr(Claimed(sb, s.d, b), s.ino[i], k) == Addr(s.d, s.ino[i], k) {
      AddrKept(s.d, Claimed(sb, s.d, b), s.o, i, s.ino[i], k);
    }
  }

  lemma ClaimKeepsIndirect(sb: Super, s: State, i: nat, b: nat)
    requires Inv(sb, s.d, s.ino, s.o) && b < sb.size && s.o[b] == Free && i < |s.ino| && s.ino[i].addrs[NDIRECT] != 0
    ensures BitBlock(sb, b) < |s.d| && s.ino[i].addrs[NDIRECT] < |s.d|
    ensures Claimed(sb, s.d, b)[s.ino[i].addrs[NDIRECT]] == s.d[s.ino[i].addrs[NDIRECT]]
  {
    BitBlockIsMeta(sb, s.o, b);
    assert Holds(s.d, s.o, i, s.ino[i], 0);
  }

  /** Recording a claimed block in the indirect block makes it block `bn` of the file. */
  lemma WordKeeps(sb: Super, s: State, i: nat, bn: nat, b: Word)
    requires Sized(sb, s.d, s.ino, s.o) && MapOk(sb, s.d, s.o) && MetaOk(sb, s.o)
    requires AllHold(s.d, s.o, s.ino) && Back(s.d, s.ino, s.o, b) && i < |s.ino| && NDIRECT <= bn < MAXFILE
    requires 0 < b < |s.o| && s.o[b] == Data(i, bn) && Addr(s.d, s.ino[i], bn) == 0
             && 0 < s.ino[i].addrs[NDIRECT] < |s.d|
    ensures var d' := s.d[s.ino[i].addrs[NDIRECT] := PutWord(s.d[s.ino[i].addrs[NDIRECT]], bn - NDIRECT, b)];
      Inv(sb, d', s.ino, s.o) && Grew(s, State(d', s.ino, s.o), i) && Stored(s.d, s.ino[i], d', s.ino[i], bn, b)
  {
    var x := s.ino[i].addrs[NDIRECT];
    var d' := s.d[x := PutWord(s.d[x], bn - NDIRECT, b)];
    assert Holds(s.d, s.o, i, s.ino[i], 0);
    WordStored(s.d, s.ino[i], bn, b);
    StoreKeeps(s.d, d', s.ino, s.o, i, s.ino[i], bn, b);
    assert s.ino[i := s.ino[i]] == s.ino;
    OverwriteMap(sb, s.d, s.o, x, d'[x]);
    forall k: nat | k < MAXFILE && 0 < Addr(s.d, s.ino[i], k) < |s.d|
      ensures Addr(d', s.ino[i], k) == Addr(s.d, s.ino[i], k)
              && d'[Addr(s.d, s.ino[i], k)] == s.d[Addr(s.d, s.ino[i], k)]
    {
      assert HasAt(s.d, s.o, i, s.ino[i], k);
    }
  }

  ghost function WordPut(sb: Super, s: State, i: nat, bn: nat, b: Word): (r: State)
    requires b < |s.d| && BitBlock(sb, b) < |s.d| && i < |s.ino| && NDIRECT <= bn < MAXFILE
             && s.ino[i].addrs[NDIRECT] < |s.d| && b < |s.o|
  {
    var x := s.ino[i].addrs[NDIRECT];
    State(Claimed(sb, s.d, b)[x := PutWord(s.d[x], bn - NDIRECT, b)], s.ino, s.o[b := Data(i, bn)])
  }

  /** A free block claimed and recorded in the indirect block. */
  lemma ClaimWord(sb: Super, s: State, i: nat, bn: nat, b: Word)
    requires Inv(sb, s.d, s.ino, s.o) && 0 < b < sb.size && s.o[b] == Free && i < |s.ino| && NDIRECT <= bn < MAXFILE
    requires 0 < s.ino[i].addrs[NDIRECT] < |s.d| && Addr(s.d, s.ino[i], bn) == 0
    ensures BitBlock(sb, b) < |s.d|
    ensures var u := WordPut(sb, s, i, bn, b);
      Inv(sb, u.d, u.ino, u.o) && Grew(s, u, i) && Stored(s.d, s.ino[i], u.d, u.ino[i], bn, b)
  {
    var who := Data(i, bn);
    ClaimMap(sb, s.d, s.o, b, who);
    ClaimRest(sb, s.d, s.ino, s.o, b, who);
    ClaimGrew(sb, s, b, who);
    ClaimAddr(sb, s, b, who);
    ClaimKeepsIndirect(sb, s, i, b);
    var t := State(Claimed(sb, s.d, b), s.ino, s.o[b := who]);
    MetaZero(sb, s.o);
    WordKeeps(sb, t, i, bn, b);
    GrewTrans(s, t, WordPut(sb, s, i, bn, b), i);
  }

  ghost function IndirectPut(sb: Super, s: State, i: nat, b: Word): (r: State)
    requires b < |s.d| && BitBlock(sb, b) < |s.d| && i < |s.ino| && b < |s.o|
  {
    State(Claimed(sb, s.d, b), s.ino[i := s.ino[i].(addrs := s.ino[i].addrs[NDIRECT := b])], s.o[b := Indirect(i)])
  }

  /** A free block claimed as the indirect block. */
  lemma ClaimIndirect(sb: Super, s: State, i: nat, b: Word)
    requires Inv(sb, s.d, s.ino, s.o) && 0 < b < sb.size && s.o[b] == Free && i < |s.ino|
    requires s.ino[i].addrs[NDIRECT] == 0
    ensures BitBlock(sb, b) < |s.d|
    ensures var u := IndirectPut(sb, s, i, b);
      Inv(sb, u.d, u.ino, u.o) && Grew(s, u, i) && forall k: nat :: Addr(u.d, u.ino[i], k) == Addr(s.d, s.ino[i], k)
  {
    var who := Indirect(i);
    ClaimMap(sb, s.d, s.o, b, who);
    ClaimRest(sb, s.d, s.ino, s.o, b, who);
    ClaimGrew(sb, s, b, who);
    ClaimAddr(sb, s, b, who);
    var t := State(Claimed(sb, s.d, b), s.ino, s.o[b := who]);
    var n' := s.ino[i].(addrs := s.ino[i].addrs[NDIRECT := b]);
    NewIndirect(t.d, t.ino, t.o, i, n', b);
    AddressedGrew(s, t, i, n');
  }

  ghost function DirectPut(sb: Super, s: State, i: nat, bn: nat, b: Word): (r: State)
    requires b < |s.d| && BitBlock(sb, b) < |s.d| && i < |s.ino| && bn < NDIRECT && b < |s.o|
  {
    State(Claimed(sb, s.d, b), s.ino[i := s.ino[i].(addrs := s.ino[i].addrs[bn := b])], s.o[b := Data(i, bn)])
  }

  /** A free block claimed and recorded in the inode. */
  lemma ClaimDirect(sb: Super, s: State, i: nat, bn: nat, b: Word)
    requires Inv(sb, s.d, s.ino, s.o) && 0 < b < sb.size && s.o[b] == Free && i < |s.ino| && bn < NDIRECT
    requires s.ino[i].addrs[bn] == 0
    ensures BitBlock(sb, b) < |s.d|
    ensures var u := DirectPut(sb, s, i, bn, b);
      Inv(sb, u.d, u.ino, u.o) && Grew(s, u, i) && Stored(s.d, s.ino[i], u.d, u.ino[i], bn, b)
  {
    var who := Data(i, bn);
    ClaimMap(sb, s.d, s.o, b, who);
    ClaimRest(sb, s.d, s.ino, s.o, b, who);
    ClaimGrew(sb, s, b, who);
    ClaimAddr(sb, s, b, who);
    MetaZero(sb, s.o);
    var t := State(Claimed(sb, s.d, b), s.ino, s.o[b := who]);
    var n' := s.ino[i].(addrs := s.ino[i].addrs[bn := b]);
    DirectStored(t.d, s.ino[i], bn, b);
    StoreKeeps(t.d, t.d, t.ino, t.o, i, n', bn, b);
    AddressedGrew(s, t, i, n');
  }

  lemma MetaZero(sb: Super, o: Owners)
    requires sb.Valid() && |o| == sb.size && MetaOk(sb, o)
    ensures |o| > 0 && o[0] == Meta
  {
  }

  /** Overwriting a block that a file owns leaves the free-block map alone. */
  lemma OverwriteMap(sb: Super, d: Disk, o: Owners, x: nat, data: Block)
    requires sb.Valid() && |d| == |o| == sb.size && MapOk(sb, d, o) && MetaOk(sb, o) && x < |d| && Reached(o[x])
    ensures MapOk(sb, d[x := data], o)
  {
    forall c | 0 <= c < sb.size ensures InUse(sb, d[x := data], c) <==> o[c] != Free {
      BitBlockIsMeta(sb, o, c);
    }
  }

  /** The kind and the size of an inode play no part in the invariant. */
  lemma Resized(sb: Super, s: State, i: nat, n': Inode)
    requires Inv(sb, s.d, s.ino, s.o) && i < |s.ino| && n'.addrs == s.ino[i].addrs
    ensures Inv(sb, s.d, s.ino[i := n'], s.o)
  {
    var ino' := s.ino[i := n'];
    forall k: nat ensures Addr(s.d, n', k) == Addr(s.d, s.ino[i], k) {
    }
    forall j: nat | j < |ino'| ensures Holds(s.d, s.o, j, ino'[j], 0) {
      assert Holds(s.d, s.o, j, s.ino[j], 0);
      forall bn: nat | bn < MAXFILE ensures HasAt(s.d, s.o, j, ino'[j], bn) {
        assert HasAt(s.d, s.o, j, s.ino[j], bn);
      }
    }
    forall c: nat | c < |s.o| && c != 0 ensures BackAt(s.d, ino', s.o[c], c) {
      assert BackAt(s.d, s.ino, s.o[c], c);
    }
  }
}
