/**
 The buffer cache of kernel/bio.c: a fixed set of buffers on a doubly linked
 most-recently-used ring, pinned by reference counts and dirty flags.

 The buffers are numbered 0..nbuf, and `nbuf` itself is the list head.  Bget, Acquire, Fill, Modify,
 MarkDirty, Bwrite, Unlock and Unref are each one critical section or one exclusive use of a
 buffer, so any interleaving of processes is a sequence of calls of these; `Valid` holds between
 any two of them.  Bread and Brelse are such sequences run without interruption.
 */
module Bio {
  import opened Numbers
  import opened Blocks
  import opened LogDisk

  const ROOTDEV: nat := 1

  datatype Lock = Free | Held(pid: nat)

  datatype Buf = Buf(dev: nat, blockno: nat, valid: bool, dirty: bool, refcnt: nat, lock: Lock, data: Block) {
    predicate HasKey(d: nat, b: nat) {
      dev == d && blockno == b
    }

    /** bget may recycle only a buffer that nobody references and the log has not pinned. */
    predicate Evictable() {
      refcnt == 0 && !dirty
    }
  }

  // ---------- the ring ----------

  function Succ(ring: seq<nat>, k: nat): (x: nat)
    requires k < |ring|
  {
    if k + 1 < |ring| then ring[k + 1] else ring[0]
  }

  /** Following `next` from `ring[0]` visits `ring` in order and returns; `prev` is its mirror. */
  ghost predicate Ring(next: seq<nat>, prev: seq<nat>, ring: seq<nat>) {
    && |ring| >= 1
    && |next| == |prev|
    && Distinct(ring)
    && (forall k :: 0 <= k < |ring| ==> ring[k] < |next|)
    && (forall k {:trigger Succ(ring, k)} :: 0 <= k < |ring| ==> next[ring[k]] == Succ(ring, k))
    && (forall k {:trigger Succ(ring, k)} :: 0 <= k < |ring| ==> prev[Succ(ring, k)] == ring[k])
  }

  function Without(ring: seq<nat>, k: nat): (r: seq<nat>)
    requires k < |ring|
  {
    ring[..k] + ring[k + 1..]
  }

  lemma WithoutElements(ring: seq<nat>, k: nat)
    requires Distinct(ring) && k < |ring|
    ensures Distinct(Without(ring, k)) && ring[k] !in Without(ring, k)
    ensures forall x :: x in ring ==> x == ring[k] || x in Without(ring, k)
    ensures forall x :: x in Without(ring, k) ==> x in ring
  {
    var r := Without(ring, k);
    forall x | x in ring && x != ring[k]
      ensures x in r
    {
      var m :| 0 <= m < |ring| && ring[m] == x;
      assert x == r[if m < k then m else m - 1];
    }
  }

  lemma UnlinkedSucc(next: seq<nat>, prev: seq<nat>, ring: seq<nat>, k: nat, j: nat)
    requires Ring(next, prev, ring) && 0 < k < |ring| && j < |ring| - 1
    ensures var x, r := ring[k], Without(ring, k);
            && prev[x] < |next| && next[x] < |prev|
            && next[prev[x] := next[x]][r[j]] == Succ(r, j)
            && Succ(r, j) < |prev|
            && prev[next[x] := prev[x]][Succ(r, j)] == r[j]
  {
    var r := Without(ring, k);
    assert Succ(ring, k - 1) == ring[k];
    assert Succ(ring, k) < |next|;
    var i := if j < k then j else j + 1;
    assert r[j] == ring[i];
    assert next[ring[i]] == Succ(ring, i) && prev[Succ(ring, i)] == ring[i];
    if i == k - 1 {
      assert Succ(r, j) == Succ(ring, k);
    } else {
      assert Succ(r, j) == Succ(ring, i);
    }
  }

  lemma RingUnlink(next: seq<nat>, prev: seq<nat>, ring: seq<nat>, k: nat)
    requires Ring(next, prev, ring) && 0 < k < |ring|
    ensures var x := ring[k];
            && prev[x] < |next| && next[x] < |prev|
            && Ring(next[prev[x] := next[x]], prev[next[x] := prev[x]], Without(ring, k))
            && x !in Without(ring, k)
  {
    var x, r := ring[k], Without(ring, k);
    WithoutElements(ring, k);
    UnlinkedSucc(next, prev, ring, k, 0);
    var next', prev' := next[prev[x] := next[x]], prev[next[x] := prev[x]];
    forall j | 0 <= j < |r|
      ensures r[j] < |next| && next'[r[j]] == Succ(r, j) && prev'[Succ(r, j)] == r[j]
    {
      UnlinkedSucc(next, prev, ring, k, j);
    }
  }

  lemma RingInsertFront(next: seq<nat>, prev: seq<nat>, ring: seq<nat>, x: nat)
    requires Ring(next, prev, ring) && x < |next| && x !in ring
    ensures var h := ring[0];
            && next[h] < |next|
            && Ring(next[x := next[h]][h := x], prev[x := h][next[h] := x], [h, x] + ring[1..])
  {
    var h := ring[0];
    var r := [h, x] + ring[1..];
    assert next[h] == Succ(ring, 0);
    var next', prev' := next[x := next[h]][h := x], prev[x := h][next[h] := x];
    forall j | 0 <= j < |r|
      ensures next'[r[j]] == Succ(r, j) && prev'[Succ(r, j)] == r[j]
    {
      if j > 1 {
        assert r[j] == ring[j - 1];
        assert next[ring[j - 1]] == Succ(ring, j - 1) && prev[Succ(ring, j - 1)] == ring[j - 1];
        assert Succ(r, j) == Succ(ring, j - 1);
      }
    }
  }

  /** Moving position `k` of a complete order to its front: the ring lists before and after, and completeness. */
  lemma MovedOrder(n: nat, order: seq<nat>, k: nat)
    requires |order| == n && k < n && Distinct([n] + order)
    requires forall i :: 0 <= i < n ==> order[i] < n
    requires forall i :: 0 <= i < n ==> i in order
    ensures var moved, rest := [order[k]] + Without(order, k), [n] + Without(order, k);
            && ([n] + order)[k + 1] == order[k]
            && Without([n] + order, k + 1) == rest
            && [n, order[k]] + rest[1..] == [n] + moved
            && |moved| == n
            && (forall i :: 0 <= i < n ==> moved[i] < n)
            && (forall i :: 0 <= i < n ==> i in moved)
  {
    var ring := [n] + order;
    assert Distinct(order) by {
      assert forall m :: 0 <= m < |order| ==> order[m] == ring[m + 1];
    }
    WithoutElements(order, k);
    var r := Without(order, k);
    assert forall i :: 0 <= i < |r| ==> r[i] == order[if i < k then i else i + 1];
  }

  // ---------- coherence ----------

  ghost predicate UniqueKeys(buf: seq<Buf>) {
    forall i, j :: 0 <= i < j < |buf| && buf[i].dev != 0 ==> !buf[j].HasKey(buf[i].dev, buf[i].blockno)
  }

  /** `truth[b]` is what was last logged or written to block `b`; `touched` are buffers under modification. */
  ghost predicate BufOk(b: Buf, truth: Disk, touched: bool) {
    && (b.lock.Held? ==> b.refcnt > 0)
    && (b.dirty ==> b.valid)
    && (b.valid ==> b.dev == ROOTDEV && b.blockno < |truth|)
    && (b.valid && !touched ==> b.data == truth[b.blockno])
    && (touched ==> b.valid && b.lock.Held?)
  }

  ghost predicate Pinned(buf: seq<Buf>, b: nat) {
    exists i :: 0 <= i < |buf| && buf[i].dirty && buf[i].blockno == b
  }

  ghost predicate Coherent(buf: seq<Buf>, disk: Disk, truth: Disk, touched: set<nat>) {
    && |disk| == |truth|
    && UniqueKeys(buf)
    && (forall i :: 0 <= i < |buf| ==> BufOk(buf[i], truth, i in touched))
    && (forall b :: 0 <= b < |disk| ==> disk[b] == truth[b] || Pinned(buf, b))
  }

  /** Changing a buffer without unpinning it or changing its key keeps coherence if it stays sound itself. */
  lemma CoherentUpdate(buf: seq<Buf>, disk: Disk, truth: Disk, touched: set<nat>, i: nat, b: Buf, touched': set<nat>)
    requires Coherent(buf, disk, truth, touched) && i < |buf|
    requires b.dev == buf[i].dev && b.blockno == buf[i].blockno && (buf[i].dirty ==> b.dirty)
    requires BufOk(b, truth, i in touched')
    requires forall j :: j != i ==> (j in touched <==> j in touched')
    ensures Coherent(buf[i := b], disk, truth, touched')
  {
    var buf' := buf[i := b];
    forall c | 0 <= c < |disk| && disk[c] != truth[c]
      ensures Pinned(buf', c)
    {
      var j :| 0 <= j < |buf| && buf[j].dirty && buf[j].blockno == c;
      assert buf'[j].dirty && buf'[j].blockno == c;
    }
  }

  lemma CoherentRecycle(buf: seq<Buf>, disk: Disk, truth: Disk, touched: set<nat>, i: nat, b: Buf)
    requires Coherent(buf, disk, truth, touched) && i < |buf| && buf[i].Evictable()
    requires forall j :: 0 <= j < |buf| ==> !buf[j].HasKey(b.dev, b.blockno)
    requires !b.valid && !b.dirty && b.lock.Free?
    ensures Coherent(buf[i := b], disk, truth, touched)
  {
    var buf' := buf[i := b];
    forall c | 0 <= c < |disk| && disk[c] != truth[c]
      ensures Pinned(buf', c)
    {
      var j :| 0 <= j < |buf| && buf[j].dirty && buf[j].blockno == c;
      assert buf'[j].dirty && buf'[j].blockno == c;
    }
  }

  /** An invalid buffer's block is up to date on disk: nobody else can have it pinned. */
  lemma InvalidMeansClean(buf: seq<Buf>, disk: Disk, truth: Disk, touched: set<nat>, i: nat)
    requires Coherent(buf, disk, truth, touched) && i < |buf|
    requires buf[i].dev == ROOTDEV && buf[i].blockno < |disk| && !buf[i].valid
    ensures disk[buf[i].blockno] == truth[buf[i].blockno]
  {
    var b := buf[i].blockno;
    if disk[b] != truth[b] {
      var j :| 0 <= j < |buf| && buf[j].dirty && buf[j].blockno == b;
      assert buf[j].HasKey(buf[i].dev, b) && buf[i].HasKey(buf[j].dev, b);
      assert false;
    }
  }

  /** log_write: the buffer's contents become the truth, pinned until written. */
  lemma CoherentLogged(buf: seq<Buf>, disk: Disk, truth: Disk, touched: set<nat>, i: nat)
    requires Coherent(buf, disk, truth, touched) && i < |buf| && buf[i].valid && buf[i].lock.Held?
    ensures Coherent(buf[i := buf[i].(dirty := true)], disk,
                     truth[buf[i].blockno := buf[i].data], touched - {i})
  {
    var c := buf[i].blockno;
    var buf' := buf[i := buf[i].(dirty := true)];
    var truth' := truth[c := buf[i].data];
    OthersElsewhere(buf, i);
    assert buf'[i].dirty && buf'[i].blockno == c;
    forall b | 0 <= b < |disk| && disk[b] != truth'[b]
      ensures Pinned(buf', b)
    {
      if b != c {
        var j :| 0 <= j < |buf| && buf[j].dirty && buf[j].blockno == b;
        assert buf'[j].dirty && buf'[j].blockno == b;
      }
    }
  }

  /** bwrite: the buffer's contents become the truth and the disk agrees with it. */
  lemma CoherentWritten(buf: seq<Buf>, disk: Disk, truth: Disk, touched: set<nat>, i: nat)
    requires Coherent(buf, disk, truth, touched) && i < |buf| && buf[i].valid && buf[i].lock.Held?
    ensures var c := buf[i].blockno;
            Coherent(buf[i := buf[i].(dirty := false)], disk[c := buf[i].data],
                     truth[c := buf[i].data], touched - {i})
  {
    var c := buf[i].blockno;
    var buf' := buf[i := buf[i].(dirty := false)];
    OthersElsewhere(buf, i);
    forall b | 0 <= b < |disk| && b != c && disk[b] != truth[b]
      ensures Pinned(buf', b)
    {
      var j :| 0 <= j < |buf| && buf[j].dirty && buf[j].blockno == b;
      assert buf'[j].dirty && buf'[j].blockno == b;
    }
  }

  lemma OthersElsewhere(buf: seq<Buf>, i: nat)
    requires UniqueKeys(buf) && i < |buf| && buf[i].dev == ROOTDEV
    ensures forall j :: 0 <= j < |buf| && j != i && buf[j].dev == ROOTDEV ==> buf[j].blockno != buf[i].blockno
  {
    forall j | 0 <= j < |buf| && j != i && buf[j].dev == ROOTDEV
      ensures buf[j].blockno != buf[i].blockno
    {
      assert buf[j].HasKey(buf[i].dev, buf[i].blockno) <==> buf[i].HasKey(buf[j].dev, buf[j].blockno);
    }
  }

  // ---------- the cache ----------

  class Bcache {
    const nbuf: nat
    var buf: seq<Buf>
    var next: seq<nat>
    var prev: seq<nat>
    var disk: Disk
    ghost var order: seq<nat>     // the buffers, most recently used first
    ghost var truth: Disk         // last logged or written contents of each block
    ghost var touched: set<nat>   // buffers modified by their holder but not logged or written yet
    ghost var writes: seq<Write>  // block writes issued so far

    ghost predicate Valid()
      reads this
    {
      && |buf| == nbuf && |next| == |prev| == nbuf + 1
      && |order| == nbuf && (forall k :: 0 <= k < nbuf ==> order[k] < nbuf)
      && Ring(next, prev, [nbuf] + order)
      && (forall i :: 0 <= i < nbuf ==> i in order)
      && Coherent(buf, disk, truth, touched)
    }

    ghost predicate Cached(dev: nat, b: nat)
      reads this
    {
      exists i :: 0 <= i < |buf| && buf[i].HasKey(dev, b)
    }

    ghost predicate HasEvictable()
      reads this
    {
      exists i :: 0 <= i < |buf| && buf[i].Evictable()
    }

    /** No buffer less recently used than position `k` is evictable. */
    ghost predicate NoneBehind(k: nat)
      requires Valid()
      reads this
    {
      forall j :: k < j < nbuf ==> !buf[order[j]].Evictable()
    }

    /** binit: every buffer starts with key (0, 0) and is linked in front of the previous ones. */
    constructor (nbuf: nat, disk: Disk)
      ensures Valid() && this.nbuf == nbuf && this.disk == disk && truth == disk
      ensures touched == {} && writes == []
      ensures forall i :: 0 <= i < nbuf ==> buf[i].Evictable() && !buf[i].valid
    {
      this.nbuf := nbuf;
      this.disk, truth, touched, writes := disk, disk, {}, [];
      buf := seq(nbuf, _ => Buf(0, 0, false, false, 0, Free, Zeroes()));
      next := seq(nbuf + 1, _ => nbuf);
      prev := seq(nbuf + 1, _ => nbuf);
      order := [];
      new;
      LinkAll();
      forall i | 0 <= i < nbuf
        ensures i in order
      {
        assert order[nbuf - 1 - i] == i;
      }
    }

    /** The loop of binit. */
    method LinkAll()
      requires |next| == |prev| == nbuf + 1 && order == []
      requires next == prev == seq(nbuf + 1, _ => nbuf)
      modifies this`next, this`prev, this`order
      ensures |next| == |prev| == nbuf + 1 && |order| == nbuf && Ring(next, prev, [nbuf] + order)
      ensures forall k :: 0 <= k < nbuf ==> order[k] == nbuf - 1 - k
    {
      assert [nbuf] + order == [nbuf];
      var b := 0;
      while b < nbuf
        invariant b <= nbuf && |next| == |prev| == nbuf + 1
        invariant |order| == b && (forall k :: 0 <= k < b ==> order[k] == b - 1 - k)
        invariant Ring(next, prev, [nbuf] + order)
      {
        ghost var ring := [nbuf] + order;
        LinkFront(b, ring);
        order := [b] + order;
        assert [nbuf, b] + ring[1..] == [nbuf] + order;
        b := b + 1;
      }
    }

    /** First loop of bget: walk the ring forwards for the key. */
    method Find(dev: nat, b: nat) returns (i: nat, found: bool)
      requires Valid()
      ensures found ==> i < nbuf && buf[i].HasKey(dev, b)
      ensures found <==> Cached(dev, b)
    {
      i := next[nbuf];
      ghost var k := 1;
      ghost var ring := [nbuf] + order;
      assert i == Succ(ring, 0);
      while i != nbuf
        invariant 1 <= k <= |ring| && i == (if k < |ring| then ring[k] else nbuf)
        invariant forall j :: 1 <= j < k ==> !buf[ring[j]].HasKey(dev, b)
        decreases |ring| - k
      {
        if buf[i].dev == dev && buf[i].blockno == b {
          return i, true;
        }
        assert next[i] == Succ(ring, k);
        i := next[i];
        k := k + 1;
      }
      forall j | 0 <= j < nbuf
        ensures !buf[j].HasKey(dev, b)
      {
        assert j in order;
        var m :| 0 <= m < |order| && order[m] == j;
        assert ring[m + 1] == j;
      }
      return i, false;
    }

    /** Second loop of bget: walk the ring backwards for the least recently used free buffer. */
    method FindVictim() returns (i: nat, found: bool)
      requires Valid()
      ensures found ==> i < nbuf && buf[i].Evictable()
      ensures found ==> exists k :: 0 <= k < nbuf && order[k] == i && NoneBehind(k)
      ensures found <==> HasEvictable()
    {
      i := prev[nbuf];
      ghost var ring := [nbuf] + order;
      ghost var k := nbuf;
      assert prev[Succ(ring, nbuf)] == ring[nbuf];
      while i != nbuf
        invariant 0 <= k <= nbuf && i == ring[k]
        invariant forall j :: k < j <= nbuf ==> !buf[ring[j]].Evictable()
        decreases k
      {
        if buf[i].refcnt == 0 && !buf[i].dirty {
          assert order[k - 1] == i;
          forall j | k - 1 < j < nbuf
            ensures !buf[order[j]].Evictable()
          {
            assert ring[j + 1] == order[j];
          }
          return i, true;
        }
        assert prev[Succ(ring, k - 1)] == ring[k - 1];
        i := prev[i];
        k := k - 1;
      }
      forall j | 0 <= j < nbuf
        ensures !buf[j].Evictable()
      {
        assert j in order;
        var m :| 0 <= m < |order| && order[m] == j;
        assert ring[m + 1] == j;
      }
      return i, false;
    }

    /** bget fails ("no buffers") exactly when the block is not cached and nothing is evictable. */
    method Bget(dev: nat, b: nat) returns (i: nat, ok: bool)
      requires Valid() && dev != 0
      modifies this`buf
      ensures Valid()
      ensures ok <==> old(Cached(dev, b)) || old(HasEvictable())
      ensures !ok ==> buf == old(buf)
      ensures ok ==> i < nbuf && buf[i].HasKey(dev, b)
      ensures ok && old(Cached(dev, b)) ==>
                buf == old(buf)[i := old(buf[i]).(refcnt := old(buf[i]).refcnt + 1)]
      ensures ok && !old(Cached(dev, b)) ==>
                && old(buf[i]).Evictable()
                && (exists k :: 0 <= k < nbuf && old(order)[k] == i && old(NoneBehind(k)))
                && buf == old(buf)[i := old(buf[i]).(dev := dev, blockno := b, valid := false, refcnt := 1)]
    {
      i, ok := Find(dev, b);
      if ok {
        CoherentUpdate(buf, disk, truth, touched, i, buf[i].(refcnt := buf[i].refcnt + 1), touched);
        buf := buf[i := buf[i].(refcnt := buf[i].refcnt + 1)];
        return;
      }
      i, ok := FindVictim();
      if ok {
        CoherentRecycle(buf, disk, truth, touched, i,
                        buf[i].(dev := dev, blockno := b, valid := false, dirty := false, refcnt := 1));
        buf := buf[i := buf[i].(dev := dev, blockno := b, valid := false, dirty := false, refcnt := 1)];
      }
    }

    /** acquiresleep on a buffer obtained from Bget, once it is free. */
    method Acquire(p: nat, i: nat)
      requires Valid() && i < nbuf && buf[i].refcnt > 0 && buf[i].lock.Free?
      modifies this`buf
      ensures Valid()
      ensures buf == old(buf)[i := old(buf[i]).(lock := Held(p))]
    {
      CoherentUpdate(buf, disk, truth, touched, i, buf[i].(lock := Held(p)), touched);
      buf := buf[i := buf[i].(lock := Held(p))];
    }

    /**
     bread by a process that finds the buffer free: the buffer comes back locked, valid, and
     holding what was last logged or written to the block.  Nothing else changes.
     */
    method Bread(p: nat, b: nat) returns (i: nat, ok: bool)
      requires Valid() && b < |disk|
      requires forall j :: 0 <= j < nbuf && buf[j].HasKey(ROOTDEV, b) ==> buf[j].lock.Free?
      modifies this`buf
      ensures Valid()
      ensures ok <==> old(Cached(ROOTDEV, b)) || old(HasEvictable())
      ensures !ok ==> buf == old(buf)
      ensures ok ==> i < nbuf && buf[i].HasKey(ROOTDEV, b) && buf[i].valid && buf[i].lock == Held(p)
      ensures ok ==> buf == old(buf)[i := buf[i]] && i !in touched && buf[i].data == truth[b]
      ensures ok && old(buf[i]).HasKey(ROOTDEV, b) ==>
                buf[i].refcnt == old(buf[i]).refcnt + 1 && buf[i].dirty == old(buf[i]).dirty
      ensures ok && !old(buf[i]).HasKey(ROOTDEV, b) ==>
                old(buf[i]).Evictable() && buf[i].refcnt == 1 && !buf[i].dirty && !old(Cached(ROOTDEV, b))
    {
      i, ok := Bget(ROOTDEV, b);
      if ok {
        Acquire(p, i);
        Fill(p, i);
      }
    }

    /** The rest of bread: read the block if the buffer does not hold it yet. */
    method Fill(p: nat, i: nat)
      requires Valid() && i < nbuf && buf[i].lock == Held(p)
      requires buf[i].dev == ROOTDEV && buf[i].blockno < |disk|
      modifies this`buf
      ensures Valid()
      ensures buf[i].valid && buf[i] == old(buf[i]).(valid := true, data := buf[i].data)
      ensures buf == old(buf)[i := buf[i]]
      ensures i !in touched ==> buf[i].data == truth[buf[i].blockno]
    {
      if !buf[i].valid {
        InvalidMeansClean(buf, disk, truth, touched, i);
        var b := buf[i].(valid := true, data := disk[buf[i].blockno]);
        CoherentUpdate(buf, disk, truth, touched, i, b, touched);
        buf := buf[i := b];
      }
    }

    /** The holder changes the buffer's data. */
    method Modify(p: nat, i: nat, data: Block)
      requires Valid() && i < nbuf && buf[i].lock == Held(p) && buf[i].valid
      modifies this`buf, this`touched
      ensures Valid()
      ensures buf == old(buf)[i := old(buf[i]).(data := data)] && touched == old(touched) + {i}
    {
      CoherentUpdate(buf, disk, truth, touched, i, buf[i].(data := data), touched + {i});
      buf := buf[i := buf[i].(data := data)];
      touched := touched + {i};
    }

    /** What log_write does to the buffer: pin it with B_DIRTY. */
    method MarkDirty(p: nat, i: nat)
      requires Valid() && i < nbuf && buf[i].lock == Held(p) && buf[i].valid
      modifies this`buf, this`truth, this`touched
      ensures Valid()
      ensures buf == old(buf)[i := old(buf[i]).(dirty := true)]
      ensures |truth| == |old(truth)| && buf[i].blockno < |truth|
      ensures truth == old(truth)[buf[i].blockno := buf[i].data] && touched == old(touched) - {i}
    {
      CoherentLogged(buf, disk, truth, touched, i);
      truth, touched := truth[buf[i].blockno := buf[i].data], touched - {i};
      buf := buf[i := buf[i].(dirty := true)];
    }

    /** bwrite: one atomic block transfer, which also clears B_DIRTY. */
    method Bwrite(p: nat, i: nat)
      requires Valid() && i < nbuf && buf[i].lock == Held(p) && buf[i].valid
      modifies this`buf, this`disk, this`truth, this`touched, this`writes
      ensures Valid()
      ensures buf == old(buf)[i := old(buf[i]).(dirty := false)]
      ensures |disk| == |truth| == |old(disk)| == |old(truth)| && buf[i].blockno < |disk|
      ensures disk == old(disk)[buf[i].blockno := buf[i].data]
      ensures truth == old(truth)[buf[i].blockno := buf[i].data] && touched == old(touched) - {i}
      ensures writes == old(writes) + [Write(buf[i].blockno, buf[i].data)]
    {
      CoherentWritten(buf, disk, truth, touched, i);
      var b := buf[i];
      disk := disk[b.blockno := b.data];
      truth, touched, writes := truth[b.blockno := b.data], touched - {i}, writes + [Write(b.blockno, b.data)];
      buf := buf[i := b.(dirty := false)];
    }

    /** brelse without interruption: give up the lock, then the reference. */
    method Brelse(p: nat, i: nat)
      requires Valid() && i < nbuf && buf[i].lock == Held(p)
      requires i !in touched
      modifies this`buf, this`next, this`prev, this`order
      ensures Valid()
      ensures buf == old(buf)[i := old(buf[i]).(lock := Free, refcnt := old(buf[i]).refcnt - 1)]
      ensures old(buf[i]).refcnt > 1 ==> order == old(order)
      ensures old(buf[i]).refcnt == 1 ==>
                |order| > 0 && order[0] == i
                && exists k :: 0 <= k < nbuf && old(order)[k] == i && order == [i] + Without(old(order), k)
    {
      Unlock(p, i);
      Unref(i);
    }

    /** releasesleep, which brelse calls before it takes the cache lock. */
    method Unlock(p: nat, i: nat)
      requires Valid() && i < nbuf && buf[i].lock == Held(p) && i !in touched
      modifies this`buf
      ensures Valid() && buf == old(buf)[i := old(buf[i]).(lock := Free)]
    {
      CoherentUpdate(buf, disk, truth, touched, i, buf[i].(lock := Free), touched);
      buf := buf[i := buf[i].(lock := Free)];
    }

    /**
     The rest of brelse, under the cache lock.  In between, another process may have locked the buffer; it
     then has a reference of its own.
     */
    method Unref(i: nat)
      requires Valid() && i < nbuf && buf[i].refcnt > 0 && (buf[i].lock.Held? ==> buf[i].refcnt > 1)
      modifies this`buf, this`next, this`prev, this`order
      ensures Valid()
      ensures buf == old(buf)[i := old(buf[i]).(refcnt := old(buf[i]).refcnt - 1)]
      ensures old(buf[i]).refcnt > 1 ==> order == old(order)
      ensures old(buf[i]).refcnt == 1 ==>
                |order| > 0 && order[0] == i
                && exists k :: 0 <= k < nbuf && old(order)[k] == i && order == [i] + Without(old(order), k)
    {
      var b := buf[i].(refcnt := buf[i].refcnt - 1);
      CoherentUpdate(buf, disk, truth, touched, i, b, touched);
      buf := buf[i := b];
      if b.refcnt == 0 {
        assert i in order;
        ghost var k :| 0 <= k < |order| && order[k] == i;
        MoveToFront(i, k);
      }
    }

    /** The relinking statements of brelse. */
    method MoveToFront(i: nat, ghost k: nat)
      requires Valid() && k < |order| && order[k] == i && i < nbuf
      modifies this`next, this`prev, this`order
      ensures Valid() && order == [i] + Without(old(order), k)
    {
      ghost var ring, rest := [nbuf] + order, [nbuf] + Without(order, k);
      MovedOrder(nbuf, order, k);
      Unlink(i, ring, k + 1);
      LinkFront(i, rest);
      order := [i] + Without(order, k);
    }

    method Unlink(i: nat, ghost ring: seq<nat>, ghost k: nat)
      requires Ring(next, prev, ring) && 0 < k < |ring| && ring[k] == i
      modifies this`next, this`prev
      ensures |next| == old(|next|) && Ring(next, prev, Without(ring, k)) && i !in Without(ring, k)
    {
      RingUnlink(next, prev, ring, k);
      var n, q := next[i], prev[i];
      prev := prev[n := q];
      next := next[q := n];
    }

    method LinkFront(i: nat, ghost ring: seq<nat>)
      requires Ring(next, prev, ring) && nbuf < |next| && ring[0] == nbuf && i < |next| && i !in ring
      modifies this`next, this`prev
      ensures |next| == old(|next|) && Ring(next, prev, [nbuf, i] + ring[1..])
    {
      RingInsertFront(next, prev, ring, i);
      var first := next[nbuf];
      next := next[i := first];
      prev := prev[i := nbuf];
      prev := prev[first := i];
      next := next[nbuf := i];
    }
  }
}
