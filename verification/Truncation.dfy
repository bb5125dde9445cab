/** How itrunc takes a file apart: every block the inode reaches is freed once, and only those. */
module Truncation {
  import opened Blocks
  import opened Ownership
  import opened Growth

  ghost predicate OwnedBy(w: Owner, i: nat) {
    Reached(w) && w.inum == i
  }

  /** Some blocks of inode `i` have been freed; every other block has the owner it had. */
  ghost predicate Shed(o: Owners, o': Owners, i: nat) {
    |o'| == |o| && forall b: nat :: b < |o| ==> o'[b] == o[b] || (o'[b] == Free && OwnedBy(o[b], i))
  }

  ghost predicate GoneBelow(o: Owners, i: nat, from: nat) {
    forall b: nat :: b < |o| && o[b].Data? && o[b].inum == i ==> o[b].bn >= from
  }

  ghost predicate OthersHold(d: Disk, o: Owners, ino: seq<Inode>, i: nat) {
    forall j: nat :: j < |ino| && j != i ==> Holds(d, o, j, ino[j], 0)
  }

  /** The data blocks of inode `i` below `from` are free again, the rest is in order. */
  ghost predicate Partial(sb: Super, s: State, i: nat, from: nat) {
    && Sized(sb, s.d, s.ino, s.o) && MapOk(sb, s.d, s.o) && MetaOk(sb, s.o) && i < |s.ino|
    && OthersHold(s.d, s.o, s.ino, i) && Holds(s.d, s.o, i, s.ino[i], from)
    && Back(s.d, s.ino, s.o, 0) && GoneBelow(s.o, i, from)
  }

  /** No block belongs to inode `i`. */
  ghost predicate Without(sb: Super, s: State, i: nat) {
    && Sized(sb, s.d, s.ino, s.o) && MapOk(sb, s.d, s.o) && MetaOk(sb, s.o) && i < |s.ino|
    && OthersHold(s.d, s.o, s.ino, i) && Back(s.d, s.ino, s.o, 0)
    && forall b: nat :: b < |s.o| ==> !OwnedBy(s.o[b], i)
  }

  lemma StartPartial(sb: Super, s: State, i: nat)
    requires Inv(sb, s.d, s.ino, s.o) && i < |s.ino|
    ensures Partial(sb, s, i, 0) && Shed(s.o, s.o, i)
  {
    assert Holds(s.d, s.o, i, s.ino[i], 0);
  }

  /** The block at `bn`, if there is one, is owned by the inode and hence marked. */
  lemma BlockAt(sb: Super, s: State, i: nat, bn: nat)
    requires Partial(sb, s, i, bn) && bn < MAXFILE
    ensures Addr(s.d, s.ino[i], bn) != 0 ==>
              Addr(s.d, s.ino[i], bn) < |s.o| && s.o[Addr(s.d, s.ino[i], bn)] == Data(i, bn)
  {
    assert HasAt(s.d, s.o, i, s.ino[i], bn);
  }

  lemma SkipBlock(sb: Super, s: State, i: nat, bn: nat)
    requires Partial(sb, s, i, bn) && bn < MAXFILE && Addr(s.d, s.ino[i], bn) == 0
    ensures Partial(sb, s, i, bn + 1)
  {
    MetaZero(sb, s.o);
    forall b: nat | b < |s.o| && s.o[b].Data? && s.o[b].inum == i ensures s.o[b].bn >= bn + 1 {
      assert BackAt(s.d, s.ino, s.o[b], b);
    }
  }

  lemma ReleaseKeepsIndirect(sb: Super, s: State, b: nat)
    requires Sized(sb, s.d, s.ino, s.o) && MetaOk(sb, s.o) && b < |s.o|
    ensures BitBlock(sb, b) < |s.d| && IndirectKept(s.d, Released(sb, s.d, b), s.o)
    ensures forall c: nat :: c < |s.o| && Reached(s.o[c]) ==> Released(sb, s.d, b)[c] == s.d[c]
  {
    BitBlockIsMeta(sb, s.o, b);
  }

  /** Holding is not affected by freeing a block of inode `i` below `from`. */
  lemma HoldsAfter(d: Disk, d': Disk, o: Owners, b: nat, j: nat, n: Inode, start: nat, from: nat)
    requires IndirectKept(d, d', o) && Holds(d, o, j, n, start) && start <= from && b < |o|
    requires o[b] != Indirect(j) && forall bn: nat :: from <= bn < MAXFILE ==> o[b] != Data(j, bn)
    ensures Holds(d', o[b := Free], j, n, from)
  {
    var o' := o[b := Free];
    forall bn: nat | from <= bn < MAXFILE ensures HasAt(d', o', j, n, bn) {
      AddrKept(d, d', o, j, n, bn);
      assert HasAt(d, o, j, n, bn);
    }
  }

  lemma BackAfter(d: Disk, d': Disk, ino: seq<Inode>, o: Owners, b: nat, i: nat, from: nat)
    requires IndirectKept(d, d', o) && Back(d, ino, o, 0) && b < |o| && i < |ino|
    requires OthersHold(d, o, ino, i) && Holds(d, o, i, ino[i], from)
    ensures Back(d', ino, o[b := Free], 0)
  {
    var o' := o[b := Free];
    forall c: nat | c < |o'| && c != 0 ensures BackAt(d', ino, o'[c], c) {
      assert BackAt(d, ino, o[c], c);
      if Reached(o'[c]) && o'[c].Data? {
        var j := o[c].inum;
        assert j != i ==> Holds(d, o, j, ino[j], 0);
        AddrKept(d, d', o, j, ino[j], o[c].bn);
      }
    }
  }

  /** bfree of the block at `bn`. */
  lemma ReleaseBlock(sb: Super, s: State, i: nat, bn: nat, b: nat)
    requires Partial(sb, s, i, bn) && bn < MAXFILE && b == Addr(s.d, s.ino[i], bn) && 0 < b < |s.o|
             && s.o[b] == Data(i, bn)
    ensures BitBlock(sb, b) < |s.d|
    ensures Partial(sb, State(Released(sb, s.d, b), s.ino, s.o[b := Free]), i, bn + 1)
  {
    ReleaseMap(sb, s.d, s.o, b);
    ReleaseKeepsIndirect(sb, s, b);
    var d', o' := Released(sb, s.d, b), s.o[b := Free];
    forall j: nat | j < |s.ino| && j != i ensures Holds(d', o', j, s.ino[j], 0) {
      HoldsAfter(s.d, d', s.o, b, j, s.ino[j], 0, 0);
    }
    HoldsAfter(s.d, d', s.o, b, i, s.ino[i], bn, bn + 1);
    BackAfter(s.d, d', s.ino, s.o, b, i, bn);
    MetaZero(sb, s.o);
    GoneAfter(s, i, bn, b);
  }

  lemma GoneAfter(s: State, i: nat, bn: nat, b: nat)
    requires Back(s.d, s.ino, s.o, 0) && GoneBelow(s.o, i, bn) && i < |s.ino| && b == Addr(s.d, s.ino[i], bn)
             && 0 < b < |s.o|
    requires !Reached(s.o[0])
    ensures GoneBelow(s.o[b := Free], i, bn + 1)
  {
    var o' := s.o[b := Free];
    forall c: nat | c < |o'| && o'[c].Data? && o'[c].inum == i ensures o'[c].bn >= bn + 1 {
      assert BackAt(s.d, s.ino, s.o[c], c);
    }
  }

  /** Clearing the address of a freed direct block. */
  lemma ClearDirect(sb: Super, s: State, i: nat, k: nat, n': Inode)
    requires Partial(sb, s, i, k + 1) && k < NDIRECT && n'.addrs == s.ino[i].addrs[k := 0]
    ensures Partial(sb, State(s.d, s.ino[i := n'], s.o), i, k + 1)
  {
    var ino' := s.ino[i := n'];
    forall bn: nat | k + 1 <= bn < MAXFILE ensures HasAt(s.d, s.o, i, n', bn) {
      assert HasAt(s.d, s.o, i, s.ino[i], bn);
    }
    forall c: nat | c < |s.o| && c != 0 ensures BackAt(s.d, ino', s.o[c], c) {
      assert BackAt(s.d, s.ino, s.o[c], c);
    }
    forall j: nat | j < |ino'| && j != i ensures Holds(s.d, s.o, j, ino'[j], 0) {
      assert Holds(s.d, s.o, j, s.ino[j], 0);
    }
  }

  /** A file without indirect block has given up everything once its direct blocks are gone. */
  lemma NoIndirectLeft(sb: Super, s: State, i: nat)
    requires Partial(sb, s, i, NDIRECT) && s.ino[i].addrs[NDIRECT] == 0
    ensures Without(sb, s, i)
  {
    MetaZero(sb, s.o);
    forall b: nat | b < |s.o| ensures !OwnedBy(s.o[b], i) {
      assert b != 0 ==> BackAt(s.d, s.ino, s.o[b], b);
    }
  }

  /** bfree of the indirect block, the last one. */
  lemma ReleaseIndirect(sb: Super, s: State, i: nat, x: nat)
    requires Partial(sb, s, i, MAXFILE) && x == s.ino[i].addrs[NDIRECT] && 0 < x < |s.o| && s.o[x] == Indirect(i)
    ensures BitBlock(sb, x) < |s.d|
    ensures Without(sb, State(Released(sb, s.d, x), s.ino, s.o[x := Free]), i)
  {
    ReleaseMap(sb, s.d, s.o, x);
    ReleaseKeepsIndirect(sb, s, x);
    var d', o' := Released(sb, s.d, x), s.o[x := Free];
    forall j: nat | j < |s.ino| && j != i ensures Holds(d', o', j, s.ino[j], 0) {
      HoldsAfter(s.d, d', s.o, x, j, s.ino[j], 0, 0);
    }
    BackAfter(s.d, d', s.ino, s.o, x, i, MAXFILE);
    forall b: nat | b < |o'| ensures !OwnedBy(o'[b], i) {
      if b != x && b != 0 {
        assert BackAt(s.d, s.ino, s.o[b], b);
      }
      MetaZero(sb, s.o);
    }
  }

  /** With no block left, an inode without addresses satisfies the invariant. */
  lemma Emptied(sb: Super, s: State, i: nat, n': Inode)
    requires Without(sb, s, i) && forall k :: 0 <= k <= NDIRECT ==> n'.addrs[k] == 0
    ensures Inv(sb, s.d, s.ino[i := n'], s.o)
  {
    var ino' := s.ino[i := n'];
    forall bn: nat | bn < MAXFILE ensures HasAt(s.d, s.o, i, n', bn) {
    }
    forall j: nat | j < |ino'| ensures Holds(s.d, s.o, j, ino'[j], 0) {
      assert j != i ==> Holds(s.d, s.o, j, s.ino[j], 0);
    }
    forall c: nat | c < |s.o| && c != 0 ensures BackAt(s.d, ino', s.o[c], c) {
      assert BackAt(s.d, s.ino, s.o[c], c);
    }
  }

  /** Blocks of inode `i` were freed, and nothing another file holds was touched. */
  ghost predicate Cut(s: State, s': State, i: nat) {
    Shed(s.o, s'.o, i) && OthersKept(s.d, s'.d, s.o, i)
  }

  lemma CutTrans(s: State, t: State, u: State, i: nat)
    requires Cut(s, t, i) && Cut(t, u, i)
    ensures Cut(s, u, i)
  {
  }

  lemma ReleaseCut(sb: Super, s: State, i: nat, b: nat)
    requires Sized(sb, s.d, s.ino, s.o) && MetaOk(sb, s.o) && b < |s.o| && OwnedBy(s.o[b], i)
    ensures BitBlock(sb, b) < |s.d|
    ensures Cut(s, State(Released(sb, s.d, b), s.ino, s.o[b := Free]), i)
  {
    ReleaseKeepsIndirect(sb, s, b);
  }

  /** The blocks of inode `i`, and no others, have become free. */
  ghost predicate Freed(o: Owners, o': Owners, i: nat) {
    |o'| == |o| && forall b: nat :: b < |o| ==> o'[b] == if OwnedBy(o[b], i) then Free else o[b]
  }

  /** When everything is gone, exactly the inode's blocks have become free. */
  lemma CutAll(sb: Super, s: State, u: State, i: nat)
    requires Cut(s, u, i) && Without(sb, u, i)
    ensures Freed(s.o, u.o, i)
  {
  }

  /** The addresses after the first `k` have been cleared. */
  function Tail(a: Addrs, k: nat): (r: Addrs)
    requires k <= NDIRECT
  {
    seq(k, _ => 0) + a[k..]
  }

  lemma TailNone(ino: seq<Inode>, i: nat)
    requires i < |ino|
    ensures Tail(ino[i].addrs, 0) == ino[i].addrs && ino == ino[i := ino[i].(addrs := Tail(ino[i].addrs, 0))]
  {
    assert Tail(ino[i].addrs, 0) == ino[i].addrs;
  }

  lemma TailMore(a: Addrs, k: nat)
    requires k < NDIRECT
    ensures Tail(a, k)[k := 0] == Tail(a, k + 1)
  {
  }

  lemma TailAll(a: Addrs)
    ensures Tail(a, NDIRECT)[NDIRECT := 0] == NoAddrs()
  {
  }
}
