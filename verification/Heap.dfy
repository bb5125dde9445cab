/**
 The user-level allocator of user/umalloc.c (section 8.7 of The C Programming Language, second
 edition): a circular free list in address order, searched first-fit, coalesced on free.

 Addresses are byte addresses; a header is 8 bytes and a block of `size` units starting at `a`
 ends at `a + 8 * size`.  `sbrk` is a parameter of malloc: the address it would return, if any.
 */
module Heap {
  import opened Numbers

  const HDR: nat := 8
  const MINUNITS: nat := 4096

  type Fields = map<nat, nat>

  ghost predicate Increasing(fl: seq<nat>) {
    forall i, j {:trigger Before(fl, i, j)} :: 0 <= i < j < |fl| ==> Before(fl, i, j)
  }

  ghost predicate Before(fl: seq<nat>, i: int, j: int)
    requires 0 <= i < |fl| && 0 <= j < |fl|
  {
    fl[i] < fl[j]
  }

  ghost predicate Known(s: seq<nat>, f: Fields) {
    forall i :: 0 <= i < |s| ==> s[i] in f
  }

  function End(size: Fields, a: nat): (e: nat)
    requires a in size
  {
    a + HDR * size[a]
  }

  ghost function Succ(fl: seq<nat>, i: nat): (a: nat)
    requires i < |fl|
  {
    if i + 1 < |fl| then fl[i + 1] else fl[0]
  }

  /** `ptr` links the blocks of `fl` into a ring in this order. */
  ghost predicate Linked(fl: seq<nat>, ptr: Fields) {
    Known(fl, ptr) && forall i {:trigger Succ(fl, i)} :: 0 <= i < |fl| ==> ptr[fl[i]] == Succ(fl, i)
  }

  /** No free block ends where the next one starts: neighbours have been coalesced. */
  ghost predicate NoTouch(fl: seq<nat>, size: Fields) {
    Known(fl, size) && forall i :: 0 <= i < |fl| - 1 ==> !Touches(fl, size, i)
  }

  ghost predicate Touches(fl: seq<nat>, size: Fields, i: int)
    requires Known(fl, size) && 0 <= i < |fl| - 1
  {
    End(size, fl[i]) == fl[i + 1]
  }

  /** The free list: `base`, then the free blocks by address, one wrap from the last back to base. */
  ghost predicate FreeList(fl: seq<nat>, ptr: Fields, size: Fields, base: nat) {
    |fl| >= 1 && fl[0] == base && Increasing(fl) && Linked(fl, ptr) && NoTouch(fl, size)
  }

  ghost predicate Disjoint(size: Fields, a: nat, b: nat)
    requires a in size && b in size
  {
    End(size, a) <= b || End(size, b) <= a
  }

  /** `base` and real blocks above it, pairwise disjoint and below `top`. */
  ghost predicate Apart(all: set<nat>, size: Fields, base: nat, top: nat) {
    && all <= size.Keys && base in all && size[base] == 0
    && (forall a :: a in all && a != base ==> base < a && size[a] > 0)
    && (forall a :: a in all ==> a + HDR * size[a] <= top)
    && (forall a, b {:trigger Disjoint(size, a, b)} :: a in all && b in all && a != b ==> Disjoint(size, a, b))
  }

  // ---------- ring surgery ----------

  function Without(fl: seq<nat>, k: nat): (r: seq<nat>)
    requires k < |fl|
    ensures |r| == |fl| - 1
  {
    fl[..k] + fl[k + 1..]
  }

  function With(fl: seq<nat>, k: nat, x: nat): (r: seq<nat>)
    requires k <= |fl|
    ensures |r| == |fl| + 1
  {
    fl[..k] + [x] + fl[k..]
  }

  lemma WithoutIncreasing(fl: seq<nat>, k: nat)
    requires Increasing(fl) && k < |fl|
    ensures Increasing(Without(fl, k))
  {
    var r := Without(fl, k);
    forall i, j | 0 <= i < j < |r|
      ensures Before(r, i, j)
    {
      assert Before(fl, if i < k then i else i + 1, if j < k then j else j + 1);
    }
  }

  lemma RemoveNextAt(fl: seq<nat>, ptr: Fields, k: nat, i: nat)
    requires Increasing(fl) && Linked(fl, ptr) && k + 1 < |fl| && i < |fl| - 1
    ensures var r := Without(fl, k + 1);
            r[i] in ptr && ptr[fl[k] := ptr[fl[k + 1]]][r[i]] == Succ(r, i)
  {
    var r := Without(fl, k + 1);
    if i == k {
      assert Succ(r, i) == Succ(fl, k + 1);
    } else {
      var j := if i < k then i else i + 1;
      assert Before(fl, if j < k then j else k, if j < k then k else j);
      assert r[i] == fl[j] != fl[k];
      assert Succ(r, i) == Succ(fl, j);
    }
  }

  lemma RemoveNext(fl: seq<nat>, ptr: Fields, k: nat)
    requires Increasing(fl) && Linked(fl, ptr) && k + 1 < |fl|
    ensures Increasing(Without(fl, k + 1))
    ensures Linked(Without(fl, k + 1), ptr[fl[k] := ptr[fl[k + 1]]])
  {
    WithoutIncreasing(fl, k + 1);
    var r := Without(fl, k + 1);
    forall i | 0 <= i < |r|
      ensures r[i] in ptr && ptr[fl[k] := ptr[fl[k + 1]]][r[i]] == Succ(r, i)
    {
      RemoveNextAt(fl, ptr, k, i);
    }
  }

  lemma WithIncreasing(fl: seq<nat>, k: nat, x: nat)
    requires Increasing(fl) && k < |fl| && fl[k] < x && (k + 1 < |fl| ==> x < fl[k + 1])
    ensures Increasing(With(fl, k + 1, x))
  {
    var r := With(fl, k + 1, x);
    forall i, j | 0 <= i < j < |r|
      ensures Before(r, i, j)
    {
      if i == k + 1 {
        assert j - 1 > k + 1 ==> Before(fl, k + 1, j - 1);
      } else if j == k + 1 {
        assert i < k ==> Before(fl, i, k);
      } else {
        assert Before(fl, if i <= k then i else i - 1, if j <= k then j else j - 1);
      }
    }
  }

  lemma InsertNextAt(fl: seq<nat>, ptr: Fields, k: nat, x: nat, i: nat)
    requires Increasing(fl) && Linked(fl, ptr) && k < |fl| && i <= |fl|
    requires fl[k] < x && (k + 1 < |fl| ==> x < fl[k + 1])
    ensures var r := With(fl, k + 1, x);
            (r[i] in ptr || r[i] == x) && ptr[x := ptr[fl[k]]][fl[k] := x][r[i]] == Succ(r, i)
  {
    var r := With(fl, k + 1, x);
    if i == k + 1 {
      assert r[i] == x && Succ(r, i) == Succ(fl, k);
    } else if i == k {
      assert Succ(r, i) == x;
    } else {
      var j := if i < k then i else i - 1;
      assert Before(fl, if j < k then j else k, if j < k then k else j);
      assert j > k + 1 ==> Before(fl, k + 1, j);
      assert r[i] == fl[j] && fl[j] != fl[k] && fl[j] != x;
      assert Succ(r, i) == Succ(fl, j);
    }
  }

  lemma InsertNext(fl: seq<nat>, ptr: Fields, k: nat, x: nat)
    requires Increasing(fl) && Linked(fl, ptr) && k < |fl|
    requires fl[k] < x && (k + 1 < |fl| ==> x < fl[k + 1])
    ensures Increasing(With(fl, k + 1, x))
    ensures Linked(With(fl, k + 1, x), ptr[x := ptr[fl[k]]][fl[k] := x])
  {
    WithIncreasing(fl, k, x);
    var r := With(fl, k + 1, x);
    forall i | 0 <= i < |r|
      ensures (r[i] in ptr || r[i] == x) && ptr[x := ptr[fl[k]]][fl[k] := x][r[i]] == Succ(r, i)
    {
      InsertNextAt(fl, ptr, k, x, i);
    }
  }

  /** Fields that the list does not use do not matter to it. */
  lemma LinkedFrame(fl: seq<nat>, ptr: Fields, ptr': Fields)
    requires Linked(fl, ptr) && Known(fl, ptr')
    requires forall i :: 0 <= i < |fl| ==> ptr'[fl[i]] == ptr[fl[i]]
    ensures Linked(fl, ptr')
  {
  }

  // ---------- the search position ----------

  /** Block `bp` belongs between the k-th free block and the next. */
  ghost predicate Position(fl: seq<nat>, bp: nat, k: nat) {
    k < |fl| && fl[k] < bp && (k + 1 < |fl| ==> bp < fl[k + 1])
  }

  lemma {:induction false} PositionExists(fl: seq<nat>, bp: nat) returns (k: nat)
    requires |fl| >= 1 && Increasing(fl) && fl[0] < bp && bp !in fl
    ensures Position(fl, bp, k)
    decreases |fl|
  {
    var n := |fl| - 1;
    if fl[n] < bp {
      k := n;
    } else {
      var init := fl[..n];
      forall i, j | 0 <= i < j < |init|
        ensures Before(init, i, j)
      {
        assert Before(fl, i, j);
      }
      k := PositionExists(init, bp);
    }
  }

  /** The tests of the search loop, at the j-th free block, single out position `k`. */
  lemma SearchStep(fl: seq<nat>, bp: nat, j: nat, k: nat)
    requires Increasing(fl) && fl != [] && fl[0] < bp && j < |fl| && Position(fl, bp, k)
    ensures fl[j] < bp < Succ(fl, j) ==> j == k
    ensures fl[j] >= Succ(fl, j) <==> j == |fl| - 1
    ensures j == |fl| - 1 && bp > fl[j] ==> j == k
    ensures j == k ==> fl[j] < bp && (bp < Succ(fl, j) || j == |fl| - 1)
  {
    assert j + 1 < |fl| ==> Before(fl, j, j + 1);
    assert 0 < j ==> Before(fl, 0, j);
    assert j + 1 < k ==> Before(fl, j + 1, k);
    assert k + 1 < j ==> Before(fl, k + 1, j);
  }

  /** Steps from position i forward to position j around a ring of n. */
  function Ahead(i: nat, j: nat, n: nat): (d: nat)
    requires i < n && j < n
  {
    if i <= j then j - i else n - i + j
  }

  // ---------- conservation ----------

  ghost function Units(s: set<nat>, size: Fields): (n: nat)
    requires s <= size.Keys
  {
    if s == {} then 0
    else
      var a :| a in s;
      size[a] + Units(s - {a}, size)
  }

  lemma {:induction false} UnitsRemove(s: set<nat>, size: Fields, a: nat)
    requires s <= size.Keys && a in s
    ensures Units(s, size) == size[a] + Units(s - {a}, size)
    decreases |s|
  {
    var b :| b in s && Units(s, size) == size[b] + Units(s - {b}, size);
    if a != b {
      UnitsRemove(s - {b}, size, a);
      UnitsRemove(s - {a}, size, b);
      assert s - {b} - {a} == s - {a} - {b};
    }
  }

  lemma {:induction false} UnitsFrame(s: set<nat>, size: Fields, size': Fields)
    requires s <= size.Keys && s <= size'.Keys
    requires forall a :: a in s ==> size'[a] == size[a]
    ensures Units(s, size') == Units(s, size)
    decreases |s|
  {
    if s != {} {
      var a :| a in s;
      UnitsRemove(s, size, a);
      UnitsRemove(s, size', a);
      UnitsFrame(s - {a}, size, size');
    }
  }

  // ---------- unit arithmetic ----------

  /** The number of units malloc computes, in 32-bit arithmetic. */
  function UnitsFor(nbytes: nat): (n: nat) {
    ((nbytes + HDR - 1) % U32) / HDR + 1
  }

  /** The computed units hold a header and the requested bytes exactly while the rounding does not wrap. */
  lemma UnitsForFits(nbytes: nat)
    requires nbytes < U32
    ensures HDR * (UnitsFor(nbytes) - 1) >= nbytes <==> nbytes + HDR - 1 < U32
    ensures nbytes + HDR - 1 < U32 ==> HDR * (UnitsFor(nbytes) - 1) < nbytes + HDR
  {
  }

  // ---------- merging and splitting blocks ----------

  lemma WithoutAt(fl: seq<nat>, k: nat)
    requires k < |fl| && Increasing(fl)
    ensures Elements(Without(fl, k)) == Elements(fl) - {fl[k]}
  {
    forall i | 0 <= i < |fl| && i != k
      ensures fl[i] != fl[k]
    {
      assert Before(fl, if i < k then i else k, if i < k then k else i);
    }
    forall a | a in fl && a != fl[k]
      ensures a in Without(fl, k)
    {
      var i :| 0 <= i < |fl| && fl[i] == a;
      assert Without(fl, k)[if i < k then i else i - 1] == a;
    }
  }

  lemma WithAt(fl: seq<nat>, k: nat, x: nat)
    requires k <= |fl|
    ensures Elements(With(fl, k, x)) == Elements(fl) + {x}
  {
    var r := With(fl, k, x);
    assert r[k] == x;
    forall a | a in fl
      ensures a in r
    {
      var i :| 0 <= i < |fl| && fl[i] == a;
      assert r[if i < k then i else i + 1] == a;
    }
  }

  /** Block `x` takes over the block `n` that starts where it ends. */
  lemma MergeApart(all: set<nat>, size: Fields, base: nat, top: nat, x: nat, n: nat)
    requires Apart(all, size, base, top) && x in all && n in all && x != n
    requires x != base && n != base && End(size, x) == n
    ensures Apart(all - {n}, size[x := size[x] + size[n]], base, top)
  {
    var size' := size[x := size[x] + size[n]];
    forall a | a in all && a != n && a != x
      ensures Disjoint(size', a, x)
    {
      assert Disjoint(size, a, x) && Disjoint(size, a, n);
    }
    forall a, b | a in all - {n} && b in all - {n} && a != b
      ensures Disjoint(size', a, b)
    {
      if a != x && b != x {
        assert Disjoint(size, a, b);
      }
    }
  }

  /** Block `x` gives up its last `nu` units, which become block `q`. */
  lemma SplitApart(all: set<nat>, size: Fields, base: nat, top: nat, x: nat, nu: nat)
    requires Apart(all, size, base, top) && x in all && x != base && 0 < nu < size[x]
    ensures var q := x + HDR * (size[x] - nu);
            q !in all && Apart(all + {q}, size[x := size[x] - nu][q := nu], base, top)
  {
    var q := x + HDR * (size[x] - nu);
    var size' := size[x := size[x] - nu][q := nu];
    assert q !in all by {
      assert forall a :: a in all && a != x ==> Disjoint(size, x, a);
    }
    forall a, b | a in all + {q} && b in all + {q} && a != b
      ensures Disjoint(size', a, b)
    {
      assert a in all && b in all ==> Disjoint(size, a, b);
      assert a in all && a != x ==> Disjoint(size, a, x);
      assert b in all && b != x ==> Disjoint(size, x, b);
    }
  }

  lemma UnitsMerge(all: set<nat>, size: Fields, x: nat, n: nat)
    requires all <= size.Keys && x in all && n in all && x != n
    ensures Units(all - {n}, size[x := size[x] + size[n]]) == Units(all, size)
  {
    var size' := size[x := size[x] + size[n]];
    UnitsRemove(all, size, n);
    UnitsRemove(all - {n}, size, x);
    UnitsRemove(all - {n}, size', x);
    UnitsFrame(all - {n} - {x}, size, size');
  }

  lemma UnitsSplit(all: set<nat>, size: Fields, x: nat, q: nat, nu: nat)
    requires all <= size.Keys && x in all && q !in all && nu < size[x]
    ensures Units(all + {q}, size[x := size[x] - nu][q := nu]) == Units(all, size)
  {
    var size' := size[x := size[x] - nu][q := nu];
    UnitsMerge(all + {q}, size', x, q);
    assert all + {q} - {q} == all;
    UnitsFrame(all, size, size'[x := size'[x] + size'[q]]);
  }

  // ---------- the free list across them ----------

  lemma RemoveNoTouch(fl: seq<nat>, size: Fields, k: nat, i: nat)
    requires Increasing(fl) && NoTouch(fl, size) && k + 1 < |fl|
    requires End(size, fl[k]) <= fl[k + 1] && i < |fl| - 2
    ensures End(size, Without(fl, k + 1)[i]) != Without(fl, k + 1)[i + 1]
  {
    if i == k {
      assert Before(fl, k + 1, k + 2);
    } else {
      assert !Touches(fl, size, if i < k then i else i + 1);
    }
  }

  /** Taking the block after position `k` off the list. */
  lemma RemoveFree(fl: seq<nat>, ptr: Fields, size: Fields, base: nat, top: nat, all: set<nat>, k: nat)
    requires FreeList(fl, ptr, size, base) && Apart(all, size, base, top) && Elements(fl) <= all && k + 1 < |fl|
    ensures FreeList(Without(fl, k + 1), ptr[fl[k] := ptr[fl[k + 1]]], size, base)
  {
    RemoveNext(fl, ptr, k);
    assert End(size, fl[k]) <= fl[k + 1] by {
      assert Before(fl, k, k + 1) && fl[k] in all && fl[k + 1] in all && Disjoint(size, fl[k], fl[k + 1]);
    }
    var r := Without(fl, k + 1);
    forall i | 0 <= i < |r| - 1
      ensures r[i] in size && End(size, r[i]) != r[i + 1]
    {
      assert r[i] in fl;
      RemoveNoTouch(fl, size, k, i);
    }
  }

  /** Sizes of blocks off the list do not matter to it. */
  lemma FreeListFrame(fl: seq<nat>, ptr: Fields, size: Fields, size': Fields, base: nat)
    requires FreeList(fl, ptr, size, base) && Known(fl, size')
    requires forall i :: 0 <= i < |fl| ==> size'[fl[i]] == size[fl[i]]
    ensures FreeList(fl, ptr, size', base)
  {
    forall i | 0 <= i < |fl| - 1
      ensures End(size', fl[i]) != fl[i + 1]
    {
      assert !Touches(fl, size, i);
    }
  }

  /** Changing the size of the block at position `k` so that it does not touch its successor. */
  lemma ResizeFree(fl: seq<nat>, ptr: Fields, size: Fields, base: nat, k: nat, s: nat)
    requires FreeList(fl, ptr, size, base) && k < |fl|
    requires k + 1 < |fl| ==> fl[k] + HDR * s != fl[k + 1]
    ensures FreeList(fl, ptr, size[fl[k] := s], base)
  {
    forall i | 0 <= i < |fl| - 1
      ensures End(size[fl[k] := s], fl[i]) != fl[i + 1]
    {
      assert !Touches(fl, size, i);
      if i != k {
        assert Before(fl, if i < k then i else k, if i < k then k else i);
      }
    }
  }

  /** Putting block `x` behind position `k`, when it touches neither neighbour. */
  lemma InsertFree(fl: seq<nat>, ptr: Fields, size: Fields, base: nat, k: nat, x: nat)
    requires FreeList(fl, ptr, size, base) && Position(fl, x, k) && x in size
    requires End(size, fl[k]) != x && (k + 1 < |fl| ==> End(size, x) != fl[k + 1])
    ensures FreeList(With(fl, k + 1, x), ptr[x := ptr[fl[k]]][fl[k] := x], size, base)
  {
    InsertNext(fl, ptr, k, x);
    WithAt(fl, k + 1, x);
    var r := With(fl, k + 1, x);
    forall i | 0 <= i < |r| - 1
      ensures End(size, r[i]) != r[i + 1]
    {
      if i < k {
        assert !Touches(fl, size, i);
      } else if i > k + 1 {
        assert !Touches(fl, size, i - 1);
      }
    }
  }

  // ---------- the whole heap ----------

  /** A heap with free list `fl`, live blocks `live` and `total` units obtained from sbrk, none lost. */
  ghost predicate HeapOk(fl: seq<nat>, live: set<nat>, ptr: Fields, size: Fields, base: nat, top: nat, total: nat) {
    && FreeList(fl, ptr, size, base)
    && Elements(fl) !! live
    && Apart(Elements(fl) + live, size, base, top)
    && Units(Elements(fl) + live, size) == total
  }

  lemma PositionNeighbours(fl: seq<nat>, live: set<nat>, ptr: Fields, size: Fields, base: nat, top: nat, total: nat,
                           bp: nat, k: nat)
    requires HeapOk(fl, live, ptr, size, base, top, total) && bp in live && Position(fl, bp, k)
    ensures End(size, fl[k]) <= bp && ptr[fl[k]] == Succ(fl, k)
    ensures k + 1 < |fl| ==> End(size, bp) <= fl[k + 1]
    ensures End(size, bp) == ptr[fl[k]] ==> k + 1 < |fl|
    ensures End(size, fl[k]) == bp ==> fl[k] != base
  {
    assert fl[k] in fl && Disjoint(size, fl[k], bp);
    if k + 1 < |fl| {
      assert fl[k + 1] in fl && Disjoint(size, bp, fl[k + 1]);
    }
  }

  lemma UpperPosition(fl: seq<nat>, size: Fields, bp: nat, k: nat)
    requires Increasing(fl) && NoTouch(fl, size) && Position(fl, bp, k) && k + 1 < |fl| && bp in size
    requires End(size, bp) == fl[k + 1]
    ensures var n := fl[k + 1];
            var fl', size' := Without(fl, k + 1), size[bp := size[bp] + size[n]];
            Position(fl', bp, k) && (k + 1 < |fl'| ==> End(size', bp) != fl'[k + 1])
  {
    var fl' := Without(fl, k + 1);
    assert fl'[k] == fl[k];
    if k + 1 < |fl'| {
      assert fl'[k + 1] == fl[k + 2] && !Touches(fl, size, k + 1) && Before(fl, k + 1, k + 2);
    }
  }

  lemma UpperBlocks(free: set<nat>, live: set<nat>, size: Fields, base: nat, top: nat, bp: nat, n: nat)
    requires free !! live && bp in live && n in free && n != base && base in free
    requires Apart(free + live, size, base, top) && End(size, bp) == n
    ensures var size' := size[bp := size[bp] + size[n]];
            && Apart(free - {n} + live, size', base, top)
            && Units(free - {n} + live, size') == Units(free + live, size)
  {
    assert free - {n} + live == free + live - {n};
    MergeApart(free + live, size, base, top, bp, n);
    UnitsMerge(free + live, size, bp, n);
  }

  /** First half of free: a live block that ends where a free block starts takes it over. */
  lemma UpperStep(fl: seq<nat>, live: set<nat>, ptr: Fields, size: Fields, base: nat, top: nat, total: nat, bp: nat,
                  k: nat)
    requires HeapOk(fl, live, ptr, size, base, top, total) && bp in live && Position(fl, bp, k)
    requires k + 1 < |fl| && End(size, bp) == fl[k + 1]
    ensures var n := fl[k + 1];
            HeapOk(Without(fl, k + 1), live, ptr[fl[k] := ptr[n]], size[bp := size[bp] + size[n]], base, top, total)
  {
    var n := fl[k + 1];
    WithoutAt(fl, k + 1);
    UpperList(fl, ptr, size, base, top, Elements(fl) + live, bp, k);
    assert n in fl && fl[0] in fl && Before(fl, 0, k + 1);
    UpperBlocks(Elements(fl), live, size, base, top, bp, n);
  }

  lemma UpperList(fl: seq<nat>, ptr: Fields, size: Fields, base: nat, top: nat, all: set<nat>, bp: nat, k: nat)
    requires FreeList(fl, ptr, size, base) && Apart(all, size, base, top) && Elements(fl) <= all && bp in all
    requires bp !in fl && k + 1 < |fl|
    ensures var n := fl[k + 1];
            FreeList(Without(fl, k + 1), ptr[fl[k] := ptr[n]], size[bp := size[bp] + size[n]], base)
  {
    var n := fl[k + 1];
    var fl', size' := Without(fl, k + 1), size[bp := size[bp] + size[n]];
    RemoveFree(fl, ptr, size, base, top, all, k);
    WithoutAt(fl, k + 1);
    assert bp !in Elements(fl');
    FreeListFrame(fl', ptr[fl[k] := ptr[n]], size, size', base);
  }

  /** Second half, touching from below: the free block at position `k` takes over the block. */
  lemma LowerMerge(fl: seq<nat>, live: set<nat>, ptr: Fields, size: Fields, base: nat, top: nat, total: nat, bp: nat,
                   k: nat)
    requires HeapOk(fl, live, ptr, size, base, top, total) && bp in live && Position(fl, bp, k)
    requires k + 1 < |fl| ==> End(size, bp) != fl[k + 1]
    requires End(size, fl[k]) == bp && fl[k] != base
    ensures HeapOk(fl, live - {bp}, ptr, size[fl[k] := size[fl[k]] + size[bp]], base, top, total)
  {
    var all := Elements(fl) + live;
    assert fl[k] in fl;
    ResizeFree(fl, ptr, size, base, k, size[fl[k]] + size[bp]);
    assert Elements(fl) + (live - {bp}) == all - {bp};
    MergeApart(all, size, base, top, fl[k], bp);
    UnitsMerge(all, size, fl[k], bp);
  }

  /** Second half, touching nothing below: the block joins the list behind position `k`. */
  lemma LowerInsert(fl: seq<nat>, live: set<nat>, ptr: Fields, size: Fields, base: nat, top: nat, total: nat, bp: nat,
                    k: nat)
    requires HeapOk(fl, live, ptr, size, base, top, total) && bp in live && Position(fl, bp, k)
    requires k + 1 < |fl| ==> End(size, bp) != fl[k + 1]
    requires End(size, fl[k]) != bp
    ensures HeapOk(With(fl, k + 1, bp), live - {bp}, ptr[bp := ptr[fl[k]]][fl[k] := bp], size, base, top, total)
  {
    InsertFree(fl, ptr, size, base, k, bp);
    WithAt(fl, k + 1, bp);
    assert Elements(With(fl, k + 1, bp)) + (live - {bp}) == Elements(fl) + live;
  }

  /** Pointers of blocks off the list do not matter. */
  lemma PtrFrame(fl: seq<nat>, live: set<nat>, ptr: Fields, ptr': Fields, size: Fields, base: nat, top: nat, total: nat)
    requires HeapOk(fl, live, ptr, size, base, top, total) && Known(fl, ptr')
    requires forall i :: 0 <= i < |fl| ==> ptr'[fl[i]] == ptr[fl[i]]
    ensures HeapOk(fl, live, ptr', size, base, top, total)
  {
    LinkedFrame(fl, ptr, ptr');
  }

  /** What the test for the upper neighbour decides. */
  lemma UpperCase(fl: seq<nat>, live: set<nat>, ptr: Fields, size: Fields, base: nat, top: nat, total: nat, bp: nat,
                  k: nat)
    requires HeapOk(fl, live, ptr, size, base, top, total) && bp in live && Position(fl, bp, k)
    ensures var n := ptr[fl[k]];
            if End(size, bp) == n then
              && n in size && n in ptr && k + 1 < |fl|
              && UpperDone(Without(fl, k + 1), live, ptr[fl[k] := ptr[n]], size[bp := size[bp] + size[n]], base, top,
                           total, bp, k, fl[k])
            else UpperDone(fl, live, ptr, size, base, top, total, bp, k, fl[k])
  {
    PositionNeighbours(fl, live, ptr, size, base, top, total, bp, k);
    if End(size, bp) == ptr[fl[k]] {
      UpperStep(fl, live, ptr, size, base, top, total, bp, k);
      UpperPosition(fl, size, bp, k);
    }
  }

  /** The heap after the first half of free: `bp` no longer touches its upper neighbour. */
  ghost predicate UpperDone(fl: seq<nat>, live: set<nat>, ptr: Fields, size: Fields, base: nat, top: nat, total: nat,
                            bp: nat, k: nat, p: nat) {
    && HeapOk(fl, live, ptr, size, base, top, total)
    && bp in live && Position(fl, bp, k) && fl[k] == p
    && (k + 1 < |fl| ==> End(size, bp) != fl[k + 1])
  }

  /** What the test for the lower neighbour decides; `ptr'` may differ from `ptr` at `bp` and must be right at `p`. */
  lemma LowerCase(fl: seq<nat>, live: set<nat>, ptr: Fields, ptr': Fields, size: Fields, base: nat, top: nat,
                  total: nat, bp: nat, k: nat, p: nat)
    requires UpperDone(fl, live, ptr, size, base, top, total, bp, k, p)
    requires bp in ptr' && ptr'[bp] == ptr[p]
    requires forall a :: a in ptr && a != bp && a != p ==> a in ptr' && ptr'[a] == ptr[a]
    ensures p in fl && bp !in fl
    ensures if End(size, p) == bp then
              HeapOk(fl, live - {bp}, ptr'[p := ptr'[bp]], size[p := size[p] + size[bp]], base, top, total)
            else
              && HeapOk(With(fl, k + 1, bp), live - {bp}, ptr'[p := bp], size, base, top, total)
              && p in With(fl, k + 1, bp) && bp in With(fl, k + 1, bp)
  {
    PositionNeighbours(fl, live, ptr, size, base, top, total, bp, k);
    assert p in fl;
    if End(size, p) == bp {
      LowerMerge(fl, live, ptr, size, base, top, total, bp, k);
      PtrFrame(fl, live - {bp}, ptr, ptr'[p := ptr'[bp]], size[p := size[p] + size[bp]], base, top, total);
    } else {
      LowerInsert(fl, live, ptr, size, base, top, total, bp, k);
      var fl' := With(fl, k + 1, bp);
      WithAt(fl, k + 1, bp);
      PtrFrame(fl', live - {bp}, ptr[bp := ptr[p]][p := bp], ptr'[p := bp], size, base, top, total);
    }
  }

  // The two conditionals of free, as functions of the header fields.

  function UpperSize(ptr: Fields, size: Fields, bp: nat, p: nat): (r: Fields)
    requires bp in size && p in ptr
  {
    if End(size, bp) == ptr[p] && ptr[p] in size then size[bp := size[bp] + size[ptr[p]]] else size
  }

  function UpperPtr(ptr: Fields, size: Fields, bp: nat, p: nat): (r: Fields)
    requires bp in size && p in ptr
  {
    if End(size, bp) == ptr[p] && ptr[p] in ptr then ptr[bp := ptr[ptr[p]]] else ptr[bp := ptr[p]]
  }

  function LowerSize(ptr: Fields, size: Fields, bp: nat, p: nat): (r: Fields)
    requires bp in size && p in size
  {
    if End(size, p) == bp then size[p := size[p] + size[bp]] else size
  }

  function LowerPtr(ptr: Fields, size: Fields, bp: nat, p: nat): (r: Fields)
    requires p in size && bp in ptr
  {
    if End(size, p) == bp then ptr[p := ptr[bp]] else ptr[p := bp]
  }

  lemma UpperResult(fl: seq<nat>, live: set<nat>, ptr: Fields, size: Fields, base: nat, top: nat, total: nat, bp: nat,
                    k: nat)
    returns (fl1: seq<nat>, ptr1: Fields)
    requires HeapOk(fl, live, ptr, size, base, top, total) && bp in live && Position(fl, bp, k)
    ensures End(size, bp) == ptr[fl[k]] ==> ptr[fl[k]] in ptr && ptr[fl[k]] in size
    ensures var ptr', size' := UpperPtr(ptr, size, bp, fl[k]), UpperSize(ptr, size, bp, fl[k]);
            && UpperDone(fl1, live, ptr1, size', base, top, total, bp, k, fl[k])
            && fl[k] in ptr1 && bp in ptr' && ptr'[bp] == ptr1[fl[k]]
            && (forall a :: a in ptr1 && a != bp && a != fl[k] ==> a in ptr' && ptr'[a] == ptr1[a])
            && size'.Keys == size.Keys && size' == size[bp := size'[bp]] && size'[bp] >= size[bp]
  {
    UpperCase(fl, live, ptr, size, base, top, total, bp, k);
    fl1, ptr1 := fl, ptr;
    var n := ptr[fl[k]];
    if End(size, bp) == n {
      fl1, ptr1 := Without(fl, k + 1), ptr[fl[k] := ptr[n]];
    }
  }

  lemma LowerResult(fl: seq<nat>, live: set<nat>, ptr: Fields, ptr': Fields, size: Fields, base: nat, top: nat,
                    total: nat, bp: nat, k: nat, p: nat)
    returns (fl': seq<nat>)
    requires UpperDone(fl, live, ptr, size, base, top, total, bp, k, p)
    requires bp in ptr' && ptr'[bp] == ptr[p]
    requires forall a :: a in ptr && a != bp && a != p ==> a in ptr' && ptr'[a] == ptr[a]
    ensures p in size
    ensures HeapOk(fl', live - {bp}, LowerPtr(ptr', size, bp, p), LowerSize(ptr', size, bp, p), base, top, total)
    ensures p in fl' && p !in live
    ensures var size' := LowerSize(ptr', size, bp, p);
            exists a :: a in fl' && a in size' && a <= bp && End(size', a) >= End(size, bp)
  {
    LowerCase(fl, live, ptr, ptr', size, base, top, total, bp, k, p);
    assert p in Elements(fl);
    if End(size, p) == bp {
      fl' := fl;
      assert p in fl';
    } else {
      fl' := With(fl, k + 1, bp);
      assert bp in fl';
    }
  }

  // ---------- malloc ----------

  /** A region handed out by sbrk, seen as one more live block. */
  lemma GrowOk(fl: seq<nat>, live: set<nat>, ptr: Fields, size: Fields, base: nat, top: nat, total: nat, hp: nat,
               nu: nat)
    requires HeapOk(fl, live, ptr, size, base, top, total) && base < top <= hp && nu > 0
    ensures hp !in fl && hp !in live
    ensures HeapOk(fl, live + {hp}, ptr, size[hp := nu], base, hp + HDR * nu, total + nu)
  {
    var all, size' := Elements(fl) + live, size[hp := nu];
    assert hp !in all;
    FreeListFrame(fl, ptr, size, size', base);
    assert Elements(fl) + (live + {hp}) == all + {hp};
    forall a, b | a in all + {hp} && b in all + {hp} && a != b
      ensures Disjoint(size', a, b)
    {
      assert a in all && b in all ==> Disjoint(size, a, b);
    }
    UnitsRemove(all + {hp}, size', hp);
    assert all + {hp} - {hp} == all;
    UnitsFrame(all, size, size');
  }

  /** An exact fit leaves the list. */
  lemma TakeExact(fl: seq<nat>, live: set<nat>, ptr: Fields, size: Fields, base: nat, top: nat, total: nat, j: nat)
    requires HeapOk(fl, live, ptr, size, base, top, total) && j + 1 < |fl|
    ensures HeapOk(Without(fl, j + 1), live + {fl[j + 1]}, ptr[fl[j] := ptr[fl[j + 1]]], size, base, top, total)
    ensures fl[j] in Without(fl, j + 1) && fl[j + 1] !in live
  {
    var p := fl[j + 1];
    assert p in fl && Before(fl, j, j + 1);
    RemoveFree(fl, ptr, size, base, top, Elements(fl) + live, j);
    WithoutAt(fl, j + 1);
    assert Elements(Without(fl, j + 1)) + (live + {p}) == Elements(fl) + live;
    assert fl[j] in Elements(fl) - {p};
  }

  /** A larger block gives up its tail and stays on the list. */
  lemma TakeTail(fl: seq<nat>, live: set<nat>, ptr: Fields, size: Fields, base: nat, top: nat, total: nat, i: nat,
                 nu: nat)
    requires HeapOk(fl, live, ptr, size, base, top, total) && i < |fl| && 0 < nu < size[fl[i]]
    ensures var p := fl[i];
            var q := p + HDR * (size[p] - nu);
            && q !in live && q !in fl && q != p
            && HeapOk(fl, live + {q}, ptr, size[p := size[p] - nu][q := nu], base, top, total)
  {
    var p, all := fl[i], Elements(fl) + live;
    var q := p + HDR * (size[p] - nu);
    assert p in fl;
    SplitApart(all, size, base, top, p, nu);
    UnitsSplit(all, size, p, q, nu);
    assert q !in fl by {
      assert q !in Elements(fl);
    }
    if i + 1 < |fl| {
      assert fl[i + 1] in fl && Before(fl, i, i + 1) && Disjoint(size, p, fl[i + 1]);
    }
    ResizeFree(fl, ptr, size, base, i, size[p] - nu);
    FreeListFrame(fl, ptr, size[p := size[p] - nu], size[p := size[p] - nu][q := nu], base);
    assert Elements(fl) + (live + {q}) == all + {q};
  }

  /** The free block at position `m` has `nunits` units or more. */
  ghost predicate Fits(fl: seq<nat>, size: Fields, m: int, nunits: nat) {
    0 <= m < |fl| && fl[m] in size && size[fl[m]] >= nunits
  }

  datatype Option<T> = None | Some(value: T)

  datatype Find = Found | NoMemory | Wild

  /** The byte count that morecore asks sbrk for is positive as a signed 32-bit integer. */
  predicate CoreIsThere(nunits: nat) {
    HDR * Max(nunits, MINUNITS) < 0x8000_0000
  }

  class Heap {
    const base: nat
    var ptr: Fields
    var size: Fields
    var freep: nat               // 0 until the first malloc
    ghost var fl: seq<nat>       // the free list in address order, starting with base
    ghost var live: set<nat>     // headers of the blocks handed out
    ghost var top: nat           // every block ends here or below
    ghost var total: nat         // units obtained from sbrk

    ghost predicate Valid()
      reads this
    {
      0 < base < top && if freep == 0 then live == {} && total == 0
      else freep in fl && HeapOk(fl, live, ptr, size, base, top, total)
    }

    constructor (base: nat, top: nat)
      requires 0 < base && base + HDR <= top
      ensures Valid() && live == {} && total == 0 && this.base == base && this.top == top
    {
      this.base, this.top, freep := base, top, 0;
      ptr, size, fl, live, total := map[], map[], [], {}, 0;
    }

    /** The search loop of free: it ends at the free block `bp` has to follow. */
    method Search(bp: nat) returns (p: nat, ghost k: nat)
      requires freep in fl && FreeList(fl, ptr, size, base) && bp !in fl && base < bp
      ensures Position(fl, bp, k) && p == fl[k]
    {
      k := PositionExists(fl, bp);
      p := freep;
      ghost var j :| 0 <= j < |fl| && fl[j] == p;
      assert ptr[fl[j]] == Succ(fl, j);
      while !(bp > p && bp < ptr[p])
        invariant 0 <= j < |fl| && p == fl[j] && ptr[p] == Succ(fl, j)
        decreases Ahead(j, k, |fl|)
      {
        SearchStep(fl, bp, j, k);
        if p >= ptr[p] && (bp > p || bp < ptr[p]) {
          break;
        }
        p := ptr[p];
        j := if j + 1 < |fl| then j + 1 else 0;
        assert ptr[fl[j]] == Succ(fl, j);
      }
      SearchStep(fl, bp, j, k);
    }

    /** free: the block leaves the live set, and the list stays ordered and coalesced. */
    method Free(ap: nat)
      requires Valid() && HDR <= ap && ap - HDR in live
      modifies this`ptr, this`size, this`freep, this`fl, this`live
      ensures Valid() && freep != 0
      ensures live == old(live) - {ap - HDR}
      ensures live <= size.Keys && forall a :: a in live ==> a in old(size) && size[a] == old(size)[a]
      ensures old(size.Keys) <= size.Keys
      ensures exists a :: a in fl && a in size && a <= ap - HDR && End(size, a) >= old(size)[ap - HDR] * HDR + ap - HDR
    {
      var bp := ap - HDR;
      var p;
      ghost var k;
      p, k := Search(bp);
      Coalesce(bp, p, k);
    }

    /** The linking statements of free, once the position is known. */
    method Coalesce(bp: nat, p: nat, ghost k: nat)
      requires HeapOk(fl, live, ptr, size, base, top, total) && 0 < base
      requires bp in live && Position(fl, bp, k) && p == fl[k]
      modifies this`ptr, this`size, this`freep, this`fl, this`live
      ensures freep == p && freep != 0 && freep in fl
      ensures HeapOk(fl, live, ptr, size, base, top, total)
      ensures live == old(live) - {bp}
      ensures live <= size.Keys && forall a :: a in live ==> a in old(size) && size[a] == old(size)[a]
      ensures old(size.Keys) <= size.Keys
      ensures exists a :: a in fl && a in size && a <= bp && End(size, a) >= End(old(size), bp)
    {
      ghost var fl1, ptr1 := UpperResult(fl, live, ptr, size, base, top, total, bp, k);
      LinkUpper(bp, p);
      JoinLower(bp, p, k, fl1, ptr1);
    }

    /** The second half of free. */
    method JoinLower(bp: nat, p: nat, ghost k: nat, ghost fl1: seq<nat>, ghost ptr1: Fields)
      requires UpperDone(fl1, live, ptr1, size, base, top, total, bp, k, p) && 0 < base
      requires p in ptr1 && bp in ptr && ptr[bp] == ptr1[p]
      requires forall a :: a in ptr1 && a != bp && a != p ==> a in ptr && ptr[a] == ptr1[a]
      modifies this`ptr, this`size, this`freep, this`fl, this`live
      ensures freep == p && freep != 0 && freep in fl
      ensures HeapOk(fl, live, ptr, size, base, top, total)
      ensures live == old(live) - {bp} && p !in live
      ensures p in old(size) && bp in old(size) && size == LowerSize(old(ptr), old(size), bp, p)
      ensures exists a :: a in fl && a in size && a <= bp && End(size, a) >= End(old(size), bp)
    {
      fl := LowerResult(fl1, live, ptr1, ptr, size, base, top, total, bp, k, p);
      LinkLower(bp, p);
      live := live - {bp};
      freep := p;
    }

    method LinkUpper(bp: nat, p: nat)
      requires bp in size && p in ptr && (End(size, bp) == ptr[p] ==> ptr[p] in ptr && ptr[p] in size)
      modifies this`ptr, this`size
      ensures ptr == UpperPtr(old(ptr), old(size), bp, p) && size == UpperSize(old(ptr), old(size), bp, p)
    {
      var n := ptr[p];
      if bp + HDR * size[bp] == n {
        size := size[bp := size[bp] + size[n]];
        ptr := ptr[bp := ptr[n]];
      } else {
        ptr := ptr[bp := n];
      }
    }

    method LinkLower(bp: nat, p: nat)
      requires bp in size && p in size && bp in ptr
      modifies this`ptr, this`size
      ensures ptr == LowerPtr(old(ptr), old(size), bp, p) && size == LowerSize(old(ptr), old(size), bp, p)
    {
      if p + HDR * size[p] == bp {
        size := size[p := size[p] + size[bp]];
        ptr := ptr[p := ptr[bp]];
      } else {
        ptr := ptr[p := bp];
      }
    }

    /** The block that malloc's first call makes the list of. */
    method InitBase()
      requires Valid() && freep == 0
      modifies this`ptr, this`size, this`freep, this`fl
      ensures Valid() && freep == base && fl == [base] && live == {} && total == 0
    {
      ptr := ptr[base := base];
      size := size[base := 0];
      freep := base;
      fl := [base];
      assert Elements(fl) + live == {base};
      UnitsRemove({base}, size, base);
      assert Succ(fl, 0) == base;
    }

    /** morecore: at least MINUNITS fresh units, freed into the list; some free block now fits. */
    method MoreCore(nunits: nat, sbrk: Option<nat>) returns (ok: bool)
      requires Valid() && freep != 0 && nunits > 0
      requires sbrk.Some? ==> sbrk.value >= top
      modifies this
      ensures ok <==> sbrk.Some?
      ensures Valid() && freep != 0 && live == old(live)
      ensures !ok ==>
                fl == old(fl) && ptr == old(ptr) && size == old(size) && freep == old(freep) && total == old(total)
      ensures ok ==> total == old(total) + Max(nunits, MINUNITS)
      ensures live <= size.Keys && live <= old(size).Keys && forall a :: a in live ==> size[a] == old(size)[a]
      ensures ok ==> exists m :: Fits(fl, size, m, nunits)
    {
      if sbrk.None? {
        return false;
      }
      var nu := Max(nunits, MINUNITS);
      var hp := sbrk.value;
      GrowOk(fl, live, ptr, size, base, top, total, hp, nu);
      size := size[hp := nu];
      live, top, total := live + {hp}, hp + HDR * nu, total + nu;
      Free(hp + HDR);
      ghost var a :| a in fl && a in size && a <= hp && End(size, a) >= hp + HDR * nu;
      ghost var m :| 0 <= m < |fl| && fl[m] == a;
      assert Fits(fl, size, m, nunits);
      return true;
    }

    /** malloc's two ways of taking `nunits` from the block `p` behind `prevp`. */
    method Take(prevp: nat, p: nat, nunits: nat, ghost j: nat) returns (bp: nat)
      requires Valid() && freep != 0 && 0 < nunits
      requires j + 1 < |fl| && prevp == fl[j] && p == fl[j + 1] && size[p] >= nunits
      modifies this`ptr, this`size, this`freep, this`fl, this`live
      ensures Valid() && freep == prevp
      ensures bp !in old(live) && live == old(live) + {bp} && bp in size && size[bp] == nunits
      ensures live <= size.Keys && old(live) <= old(size).Keys && forall a :: a in old(live) ==> size[a] == old(size)[a]
    {
      assert p in fl && prevp in fl && p !in live && base <= prevp;
      if size[p] == nunits {
        TakeWhole(prevp, p, j);
        bp := p;
      } else {
        bp := TakePart(p, nunits, j + 1);
      }
      freep := prevp;
    }

    /** An exact fit: unlink the block. */
    method TakeWhole(prevp: nat, p: nat, ghost j: nat)
      requires HeapOk(fl, live, ptr, size, base, top, total) && j + 1 < |fl| && prevp == fl[j] && p == fl[j + 1]
      modifies this`ptr, this`fl, this`live
      ensures HeapOk(fl, live, ptr, size, base, top, total)
      ensures prevp in fl && p !in old(live) && live == old(live) + {p} && p in size
    {
      assert p in fl && prevp in fl;
      TakeExact(fl, live, ptr, size, base, top, total, j);
      ptr := ptr[prevp := ptr[p]];
      fl := Without(fl, j + 1);
      live := live + {p};
    }

    /** A larger block: hand out its tail end. */
    method TakePart(p: nat, nunits: nat, ghost i: nat) returns (bp: nat)
      requires HeapOk(fl, live, ptr, size, base, top, total) && i < |fl| && p == fl[i] && 0 < nunits < size[p]
      modifies this`size, this`live
      ensures HeapOk(fl, live, ptr, size, base, top, total)
      ensures bp !in old(live) && live == old(live) + {bp} && bp in size && size[bp] == nunits
      ensures live <= size.Keys && old(live) <= old(size).Keys && forall a :: a in old(live) ==> size[a] == old(size)[a]
    {
      assert p in fl && p !in live;
      TakeTail(fl, live, ptr, size, base, top, total, i, nunits);
      var s := size[p] - nunits;
      bp := p + HDR * s;
      size := size[p := s][bp := nunits];
      live := live + {bp};
    }

    /**
     One lap of malloc's search loop, from the block behind freep up to freep itself.  It stops at
     the first block that fits, and finds one whenever there is one.
     */
    method Lap(nunits: nat) returns (prevp: nat, p: nat, found: bool, ghost j: nat)
      requires Valid() && freep != 0 && 0 < nunits
      ensures found ==> j + 1 < |fl| && prevp == fl[j] && p == fl[j + 1] && p in size && size[p] >= nunits
      ensures found <==> exists m :: Fits(fl, size, m, nunits)
      ensures found ==> exists f: nat :: f < |fl| && fl[f] == freep && PassedSmall(fl, size, f, j + 1, nunits)
    {
      prevp := freep;
      p := ptr[prevp];
      ghost var f: nat :| f < |fl| && fl[f] == freep;
      j := f;
      assert p == Succ(fl, j);
      PassNone(fl, size, f, nunits);
      while true
        invariant 0 <= j < |fl| && prevp == fl[j] && p == fl[Next(j, |fl|)]
        invariant PassedSmall(fl, size, f, Next(j, |fl|), nunits)
        decreases Ahead(Next(j, |fl|), f, |fl|)
      {
        ghost var i := Next(j, |fl|);
        assert fl[i] in fl;
        if size[p] >= nunits {
          assert Fits(fl, size, i, nunits);
          assert fl[0] == base && size[base] == 0;
          return prevp, p, true, j;
        }
        if p == freep {
          Located(fl, i, f);
          PassAll(fl, size, f, nunits);
          return prevp, p, false, j;
        }
        PassStep(fl, size, f, i, nunits);
        assert ptr[fl[i]] == Succ(fl, i);
        prevp := p;
        p := ptr[p];
        j := i;
      }
    }

    /** The search loop of malloc: a lap, and after morecore another one, which cannot fail. */
    method FindFit(nunits: nat, sbrk: Option<nat>) returns (prevp: nat, p: nat, f: Find, ghost j: nat)
      requires Valid() && freep != 0 && 0 < nunits
      requires sbrk.Some? ==> sbrk.value >= top
      modifies this
      ensures Valid() && freep != 0 && live == old(live)
      ensures f.Found? ==> j + 1 < |fl| && prevp == fl[j] && p == fl[j + 1] && p in size && size[p] >= nunits
      ensures !f.Found? ==> total == old(total) && forall i :: !Fits(fl, size, i, nunits)
      ensures f.NoMemory? ==> sbrk.None?
      ensures f.Wild? ==> sbrk.Some? && !CoreIsThere(nunits)
      ensures live <= size.Keys && live <= old(size).Keys && forall a :: a in live ==> size[a] == old(size)[a]
      ensures total == old(total) || (total == old(total) + Max(nunits, MINUNITS) && CoreIsThere(nunits))
      ensures total != old(total) ==> forall i :: !Fits(old(fl), old(size), i, nunits)
    {
      var found;
      prevp, p, found, j := Lap(nunits);
      if !found {
        if sbrk.Some? && !CoreIsThere(nunits) {
          return prevp, p, Wild, j;
        }
        var ok := MoreCore(nunits, sbrk);
        if !ok {
          return prevp, p, NoMemory, j;
        }
        ghost var m :| Fits(fl, size, m, nunits);
        prevp, p, found, j := Lap(nunits);
        assert Fits(fl, size, m, nunits);
      }
      f := Found;
    }

    /**
     malloc: first fit, growing the heap once, and only if nothing fits.  It fails only if no free block is
     large enough and sbrk refuses; otherwise one new live block of exactly the computed units
     appears, and no other live block changes.  With `wild`, nothing fits and sbrk has answered
     with an address that has no memory for the units behind it; nothing is stated of what follows.
     */
    method Malloc(nbytes: nat, sbrk: Option<nat>) returns (ap: nat, wild: bool)
      requires Valid()
      requires sbrk.Some? ==> sbrk.value >= top
      modifies this
      ensures Valid()
      ensures wild ==> sbrk.Some? && !CoreIsThere(UnitsFor(nbytes))
      ensures ap == 0 ==> live == old(live) && total == old(total) && (sbrk.None? || wild)
                          && forall i :: !Fits(fl, size, i, UnitsFor(nbytes))
      ensures ap != 0 ==> HDR <= ap && ap - HDR !in old(live) && live == old(live) + {ap - HDR}
                          && ap - HDR in size && size[ap - HDR] == UnitsFor(nbytes) && !wild
      ensures old(live) <= live <= size.Keys && forall a :: a in old(live) ==> a in old(size) && size[a] == old(size)[a]
      ensures total == old(total)
              || (total == old(total) + Max(UnitsFor(nbytes), MINUNITS) && CoreIsThere(UnitsFor(nbytes)))
      ensures total != old(total) && old(freep) != 0 ==> forall i :: !Fits(old(fl), old(size), i, UnitsFor(nbytes))
    {
      var nunits := UnitsFor(nbytes);
      if freep == 0 {
        InitBase();
      }
      var prevp, p, f;
      ghost var j;
      prevp, p, f, j := FindFit(nunits, sbrk);
      if !f.Found? {
        return 0, f.Wild?;
      }
      var bp := Take(prevp, p, nunits, j);
      return bp + HDR, false;
    }
  }

  ghost function Next(j: nat, n: nat): (i: nat)
    requires j < n
    ensures i < n
  {
    if j + 1 < n then j + 1 else 0
  }

  /** Free blocks farther from position `f` than `i` is are too small: the walk has passed them. */
  ghost predicate PassedSmall(fl: seq<nat>, size: Fields, f: nat, i: nat, nunits: nat)
    requires f < |fl| && i < |fl|
  {
    forall q: nat :: q < |fl| && Ahead(q, f, |fl|) > Ahead(i, f, |fl|) ==> !Fits(fl, size, q, nunits)
  }

  lemma PassNone(fl: seq<nat>, size: Fields, f: nat, nunits: nat)
    requires f < |fl|
    ensures PassedSmall(fl, size, f, Next(f, |fl|), nunits)
  {
  }

  lemma PassStep(fl: seq<nat>, size: Fields, f: nat, i: nat, nunits: nat)
    requires f < |fl| && i < |fl| && i != f && PassedSmall(fl, size, f, i, nunits) && !Fits(fl, size, i, nunits)
    ensures PassedSmall(fl, size, f, Next(i, |fl|), nunits) && Ahead(Next(i, |fl|), f, |fl|) < Ahead(i, f, |fl|)
  {
  }

  /** Back at the start, no block fits. */
  lemma PassAll(fl: seq<nat>, size: Fields, f: nat, nunits: nat)
    requires f < |fl| && PassedSmall(fl, size, f, f, nunits) && !Fits(fl, size, f, nunits)
    ensures forall m :: !Fits(fl, size, m, nunits)
  {
    forall m ensures !Fits(fl, size, m, nunits) {
      if 0 <= m < |fl| && m != f {
        assert Ahead(m, f, |fl|) > 0;
      }
    }
  }

  lemma Located(fl: seq<nat>, i: nat, f: nat)
    requires Increasing(fl) && i < |fl| && f < |fl| && fl[i] == fl[f]
    ensures i == f
  {
    assert i < f ==> Before(fl, i, f);
    assert f < i ==> Before(fl, f, i);
  }
}
