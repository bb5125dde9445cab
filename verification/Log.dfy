/**
 The logging code of kernel/log.c running over the buffer cache: `log_write`, `write_log`,
 `write_head`, `install_trans`, `commit` and `recover_from_log`.

 Each is proved to issue exactly the block writes that LogDisk describes and never to meet
 bget's "no buffers" panic.
 */
module Log {
  import opened Numbers
  import opened Blocks
  import opened LogDisk
  import opened Bio

  // ---------- room in the cache ----------

  ghost predicate Quiet(buf: seq<Buf>) {
    forall i :: 0 <= i < |buf| ==> buf[i].refcnt == 0 && buf[i].lock.Free?
  }

  /** Only blocks of `bs` are pinned. */
  ghost predicate PinsWithin(buf: seq<Buf>, bs: seq<nat>) {
    forall i :: 0 <= i < |buf| && buf[i].dirty ==> buf[i].blockno in bs
  }

  /** Buffers outside `held` are unreferenced and unlocked. */
  ghost predicate HeldOnly(buf: seq<Buf>, held: set<nat>) {
    forall i :: 0 <= i < |buf| && i !in held ==> buf[i].refcnt == 0 && buf[i].lock.Free?
  }

  /** Reading block `b` into buffer `x` of `was` gave `buf`, locked by `p`; no pin changed. */
  ghost predicate ReadInto(was: seq<Buf>, buf: seq<Buf>, x: nat, p: nat, b: nat) {
    && x < |buf| == |was|
    && buf == was[x := buf[x]]
    && buf[x].HasKey(ROOTDEV, b) && buf[x].valid && buf[x].lock == Held(p) && buf[x].refcnt == 1
    && buf[x].dirty == was[x].dirty
    && (was[x].dirty ==> was[x].blockno == b)
  }

  ghost predicate DirtySound(buf: seq<Buf>) {
    UniqueKeys(buf) && forall i :: 0 <= i < |buf| && buf[i].dirty ==> buf[i].dev == ROOTDEV
  }

  lemma {:induction false} InjectionBound(buf: seq<Buf>, d: set<nat>, bs: set<nat>)
    requires DirtySound(buf)
    requires forall i :: i in d ==> i < |buf| && buf[i].dirty && buf[i].blockno in bs
    ensures |d| <= |bs|
    decreases |d|
  {
    if d != {} {
      var i :| i in d;
      OthersElsewhere(buf, i);
      InjectionBound(buf, d - {i}, bs - {buf[i].blockno});
    }
  }

  /** Fewer pinned blocks and held buffers than buffers: one buffer is evictable. */
  lemma RoomExists(buf: seq<Buf>, bs: seq<nat>, held: set<nat>)
    requires DirtySound(buf) && PinsWithin(buf, bs)
    requires forall i :: 0 <= i < |buf| && buf[i].refcnt > 0 ==> i in held
    requires |bs| + |held| < |buf|
    ensures exists i :: 0 <= i < |buf| && buf[i].Evictable()
  {
    if forall i :: 0 <= i < |buf| ==> !buf[i].Evictable() {
      var d := set i | i in Range(0, |buf|) && buf[i].dirty;
      InjectionBound(buf, d, Elements(bs));
      ElementsSize(bs);
      SubsetSize(Range(0, |buf|), held + d);
      assert false;
    }
  }

  /** One pinned buffer for each of the distinct blocks `bs`. */
  lemma {:induction false} PinningBuffers(buf: seq<Buf>, bs: seq<nat>) returns (e: set<nat>)
    requires Distinct(bs) && forall k :: 0 <= k < |bs| ==> Pinned(buf, bs[k])
    ensures |e| == |bs| && forall i :: i in e ==> i < |buf| && buf[i].dirty && buf[i].blockno in bs
  {
    if bs == [] {
      e := {};
    } else {
      var n := |bs| - 1;
      e := PinningBuffers(buf, bs[..n]);
      assert Pinned(buf, bs[n]);
      var i: nat :| i < |buf| && buf[i].dirty && buf[i].blockno == bs[n];
      e := e + {i};
    }
  }

  /**
   The room that commit asks for is exact.  With as many pinned blocks as buffers there is no buffer
   left, so reading the first log slot, which is not cached, meets "no buffers".
   */
  lemma NoRoomWhenAllPinned(cache: Bcache, bs: seq<nat>, slot: nat)
    requires cache.Valid() && Distinct(bs) && |bs| == cache.nbuf && slot !in bs
    requires forall k :: 0 <= k < |bs| ==> Pinned(cache.buf, bs[k])
    ensures !cache.Cached(ROOTDEV, slot) && !cache.HasEvictable()
  {
    var e := PinningBuffers(cache.buf, bs);
    forall i | 0 <= i < cache.nbuf ensures cache.buf[i].dirty && cache.buf[i].blockno in bs {
      if i !in e {
        SubsetSize(e, Range(0, cache.nbuf) - {i});
        assert false;
      }
    }
  }

  // ---------- the log ----------

  class Log {
    const l: Layout
    const cache: Bcache
    var lh: seq<nat>

    constructor (l: Layout, cache: Bcache)
      ensures this.l == l && this.cache == cache && lh == []
    {
      this.l, this.cache, lh := l, cache, [];
    }

    /** The cache is idle and roomy enough, and the in-memory header fits the log. */
    ghost predicate Idle()
      reads this, cache
    {
      && cache.Valid() && Quiet(cache.buf)
      && l.Valid() && |cache.disk| == l.size
      && Loggable(l, lh) && |lh| + 1 <= cache.nbuf && 2 <= cache.nbuf
    }

    /** log_write: record the block, absorbing a repeated one, and pin its buffer. */
    method LogWrite(p: nat, i: nat, outstanding: int) returns (panic: bool)
      requires cache.Valid() && i < cache.nbuf && cache.buf[i].lock == Held(p) && cache.buf[i].valid
      modifies this, cache
      ensures panic <==> |old(lh)| >= LOGSIZE || |old(lh)| >= l.nlog - 1 || outstanding < 1
      ensures cache.Valid()
      ensures panic ==> lh == old(lh) && cache.buf == old(cache.buf) && cache.truth == old(cache.truth)
      ensures !panic ==> var b := old(cache.buf)[i].blockno;
                && lh == (if b in old(lh) then old(lh) else old(lh) + [b])
                && cache.buf == old(cache.buf)[i := old(cache.buf)[i].(dirty := true)]
                && b < |old(cache.truth)|
                && cache.truth == old(cache.truth)[b := old(cache.buf)[i].data]
      ensures cache.disk == old(cache.disk) && cache.writes == old(cache.writes)
    {
      if |lh| >= LOGSIZE || |lh| >= l.nlog - 1 {
        return true;
      }
      if outstanding < 1 {
        return true;
      }
      var b := cache.buf[i].blockno;
      var k := 0;
      while k < |lh|
        invariant 0 <= k <= |lh| && b !in lh[..k]
      {
        if lh[k] == b {
          break;
        }
        k := k + 1;
      }
      if k == |lh| {
        lh := lh + [b];
      } else {
        lh := lh[k := b];
      }
      cache.MarkDirty(p, i);
      return false;
    }

    /** bread while `bs` are the only pinned blocks and `held` the only referenced buffers. */
    method ReadBlock(p: nat, b: nat, ghost bs: seq<nat>, ghost held: set<nat>) returns (x: nat)
      requires cache.Valid() && b < |cache.disk|
      requires HeldOnly(cache.buf, held) && PinsWithin(cache.buf, bs)
      requires forall i :: i in held ==>
                 i < cache.nbuf && !cache.buf[i].HasKey(ROOTDEV, b) && cache.buf[i].refcnt > 0
      requires |bs| + |held| < cache.nbuf
               || (b in bs && |bs| + |held| < cache.nbuf + 1)
      modifies cache`buf
      ensures cache.Valid() && x < cache.nbuf && x !in held
      ensures ReadInto(old(cache.buf), cache.buf, x, p, b) && x !in cache.touched
      ensures cache.buf[x].data == cache.truth[b]
    {
      var ok;
      if !exists i :: 0 <= i < cache.nbuf && cache.buf[i].HasKey(ROOTDEV, b) {
        if |bs| + |held| < cache.nbuf {
          RoomExists(cache.buf, bs, held);
        } else {
          RoomBeside(cache.buf, bs, b, held);
        }
      }
      x, ok := cache.Bread(p, b);
      assert ok;
    }

    /** Copy a block between its log slot and its home through the cache, and write the copy to disk. */
    method CopyBlock(p: nat, slot: nat, home: nat, intoLog: bool, ghost bs: seq<nat>)
      requires cache.Valid() && Quiet(cache.buf)
      requires slot < |cache.disk| && home < |cache.disk| && slot != home
      requires PinsWithin(cache.buf, bs) && home in bs && |bs| + 1 <= cache.nbuf && 2 <= cache.nbuf
      modifies cache
      ensures cache.Valid() && Quiet(cache.buf)
      ensures var to, from := if intoLog then slot else home, if intoLog then home else slot;
                && |old(cache.truth)| == |old(cache.disk)|
                && cache.truth == old(cache.truth)[to := old(cache.truth)[from]]
                && cache.disk == old(cache.disk)[to := old(cache.truth)[from]]
                && cache.writes == old(cache.writes) + [Write(to, old(cache.truth)[from])]
                && (forall i :: 0 <= i < cache.nbuf && cache.buf[i].dirty ==>
                      && old(cache.buf)[i].dirty
                      && cache.buf[i].blockno != to && cache.buf[i].blockno == old(cache.buf)[i].blockno)
    {
      ghost var b0 := cache.buf;
      var x := ReadBlock(p, slot, bs, {});
      ghost var b1 := cache.buf;
      var y := ReadBlock(p, home, bs, {x});
      ghost var b2 := cache.buf;
      if intoLog {
        Transfer(p, x, y);
      } else {
        Transfer(p, y, x);
      }
      CopiedPins(b0, b1, b2, cache.buf, x, y, p, slot, home, intoLog);
    }

    /** CopyBlock as write number `k` of the planned writes `ws`. */
    method CopyPlanned(p: nat, slot: nat, home: nat, intoLog: bool, ghost bs: seq<nat>,
                       ghost d0: Disk, ghost w0: seq<Write>, ghost ws: seq<Write>, ghost k: nat)
      requires cache.Valid() && Quiet(cache.buf)
      requires slot < |cache.disk| && home < |cache.disk| && slot != home
      requires PinsWithin(cache.buf, bs) && home in bs && |bs| + 1 <= cache.nbuf && 2 <= cache.nbuf
      requires k < |ws| && Issued(d0, w0, cache.disk, cache.writes, ws[..k])
      requires |cache.truth| == |cache.disk|
      requires ws[k] == if intoLog then Write(slot, cache.truth[home]) else Write(home, cache.truth[slot])
      modifies cache
      ensures cache.Valid() && Quiet(cache.buf) && |cache.disk| == |old(cache.disk)|
      ensures cache.truth == old(cache.truth)[ws[k].blockno := ws[k].data]
      ensures Issued(d0, w0, cache.disk, cache.writes, ws[..k + 1])
      ensures forall i :: 0 <= i < cache.nbuf && cache.buf[i].dirty ==>
                && old(cache.buf)[i].dirty
                && cache.buf[i].blockno != ws[k].blockno && cache.buf[i].blockno == old(cache.buf)[i].blockno
    {
      IssuedNext(d0, w0, cache.disk, cache.writes, ws, k);
      CopyBlock(p, slot, home, intoLog, bs);
    }

    /** Copy buffer `from` to buffer `to`, write `to`, release both. */
    method Transfer(p: nat, to: nat, from: nat)
      requires cache.Valid() && to < cache.nbuf && from < cache.nbuf && to != from
      requires forall i :: i in {to, from} ==> Exclusive(cache.buf[i], p) && i !in cache.touched
      modifies cache
      ensures cache.Valid()
      ensures cache.buf == Transferred(old(cache.buf), to, from)
      ensures var c, data := old(cache.buf)[to].blockno, old(cache.buf)[from].data;
              && c < |old(cache.truth)| == |old(cache.disk)|
              && cache.truth == old(cache.truth)[c := data]
              && cache.disk == old(cache.disk)[c := data]
              && cache.writes == old(cache.writes) + [Write(c, data)]
    {
      cache.Modify(p, to, cache.buf[from].data);
      cache.Bwrite(p, to);
      cache.Brelse(p, from);
      cache.Brelse(p, to);
    }

    /** write_log copies every logged block from the cache into its log slot. */
    method WriteLog(p: nat)
      requires Idle() && PinsWithin(cache.buf, lh)
      modifies cache
      ensures Idle() && PinsWithin(cache.buf, lh)
      ensures Issued(old(cache.disk), old(cache.writes), cache.disk, cache.writes,
                     LogWrites(l, At(old(cache.truth), lh)))
      ensures SameOutsideLog(l, old(cache.truth), cache.truth)
      ensures SlotsHold(l, cache.truth, At(old(cache.truth), lh), |lh|)
    {
      ghost var vals, ws := At(cache.truth, lh), LogWrites(l, At(cache.truth, lh));
      var tail := 0;
      while tail < |lh|
        invariant 0 <= tail <= |lh|
        invariant Idle() && PinsWithin(cache.buf, lh)
        invariant Issued(old(cache.disk), old(cache.writes), cache.disk, cache.writes, ws[..tail])
        invariant SameOutsideLog(l, old(cache.truth), cache.truth)
        invariant SlotsHold(l, cache.truth, vals, tail)
      {
        SlotFilled(l, old(cache.truth), cache.truth, vals, tail);
        CopyPlanned(p, l.start + tail + 1, lh[tail], true, lh, old(cache.disk), old(cache.writes), ws, tail);
        tail := tail + 1;
      }
      assert ws[..|lh|] == ws;
    }

    /** write_head writes the in-memory header over the header block. */
    method WriteHead(p: nat)
      requires Idle() && PinsWithin(cache.buf, lh)
      modifies cache
      ensures Idle() && PinsWithin(cache.buf, lh)
      ensures |old(cache.truth)| == |old(cache.disk)| == l.size
      ensures cache.writes == old(cache.writes) + [Write(l.start, PutHead(old(cache.truth)[l.start], lh))]
      ensures cache.truth == old(cache.truth)[l.start := PutHead(old(cache.truth)[l.start], lh)]
      ensures cache.disk == old(cache.disk)[l.start := PutHead(old(cache.truth)[l.start], lh)]
    {
      ghost var b0 := cache.buf;
      var i := ReadBlock(p, l.start, lh, {});
      ghost var b1 := cache.buf;
      var h := HeaderWords(cache.buf[i].data);
      cache.Modify(p, i, h);
      cache.Bwrite(p, i);
      cache.Brelse(p, i);
      HeadPins(b0, b1, cache.buf, i, p, l.start, h, lh);
    }

    /** The loop of write_head that fills the header buffer. */
    method HeaderWords(before: Block) returns (h: Block)
      requires |lh| <= LOGSIZE
      ensures h == PutHead(before, lh)
    {
      ghost var ws := HeadWords(lh);
      assert ws[..1] == [|lh|] && ws[..1][..0] == [];
      h := PutWord(before, 0, |lh|);
      var i := 0;
      while i < |lh|
        invariant 0 <= i <= |lh|
        invariant h == PutWords(before, 0, ws[..1 + i])
      {
        assert ws[..2 + i][..1 + i] == ws[..1 + i];
        h := PutWord(h, 1 + i, lh[i] % U32);
        i := i + 1;
      }
      assert ws[..1 + |lh|] == ws;
    }

    /** install_trans copies every log slot to the home block the header lists for it. */
    method InstallTrans(p: nat, ghost vals: seq<Block>)
      requires Idle() && PinsWithin(cache.buf, lh)
      requires |vals| == |lh| && SlotsHold(l, cache.truth, vals, |lh|)
      modifies cache
      ensures Idle() && PinsWithin(cache.buf, [])
      ensures Issued(old(cache.disk), old(cache.writes), cache.disk, cache.writes, InstallWrites(lh, vals))
      ensures |cache.truth| == l.size && cache.truth[l.start] == old(cache.truth)[l.start]
    {
      ghost var ws := InstallWrites(lh, vals);
      assert lh[0..] == lh;
      var tail := 0;
      while tail < |lh|
        invariant 0 <= tail <= |lh|
        invariant Idle() && PinsWithin(cache.buf, lh[tail..])
        invariant Issued(old(cache.disk), old(cache.writes), cache.disk, cache.writes, ws[..tail])
        invariant SlotsHold(l, cache.truth, vals, |lh|)
        invariant cache.truth[l.start] == old(cache.truth)[l.start]
      {
        ghost var before := cache.buf;
        SlotsKept(l, cache.truth, vals, |lh|, lh[tail], vals[tail]);
        CopyPlanned(p, l.start + tail + 1, lh[tail], false, lh[tail..], old(cache.disk), old(cache.writes), ws, tail);
        PinsShrink(before, cache.buf, lh, tail);
        tail := tail + 1;
      }
      assert ws[..|lh|] == ws && lh[|lh|..] == [];
    }

    /**
     commit issues exactly the block writes of CommitWrites, leaves the log empty and nothing
     pinned, and finds a buffer whenever it needs one.
     */
    method Commit(p: nat)
      requires Idle() && PinsWithin(cache.buf, lh)
      modifies this`lh, cache
      ensures Idle() && PinsWithin(cache.buf, []) && lh == []
      ensures |old(cache.truth)| == |old(cache.disk)| == l.size
      ensures Issued(old(cache.disk), old(cache.writes), cache.disk, cache.writes,
                     CommitWrites(l, old(cache.disk)[l.start], old(lh), At(old(cache.truth), old(lh))))
    {
      HeaderClean(l, cache.buf, cache.disk, cache.truth, cache.touched, lh);
      if |lh| > 0 {
        ghost var bs, vals, h := lh, At(cache.truth, lh), cache.truth[l.start];
        ghost var d0, w0 := cache.disk, cache.writes;
        LogAll(p);
        ghost var d1, w1 := cache.disk, cache.writes;
        InstallAll(p, vals);
        CommitJoins(l, d0, w0, d1, w1, cache.disk, cache.writes, h, bs, vals);
      } else {
        assert PinsWithin(cache.buf, []);
      }
    }

    /** The first half of commit: log the blocks, then write the header. */
    method LogAll(p: nat)
      requires Idle() && PinsWithin(cache.buf, lh)
      modifies cache
      ensures Idle() && PinsWithin(cache.buf, lh) && |old(cache.truth)| == l.size
      ensures Issued(old(cache.disk), old(cache.writes), cache.disk, cache.writes,
                     LogWrites(l, At(old(cache.truth), lh)) + [Write(l.start, PutHead(old(cache.truth)[l.start], lh))])
      ensures SlotsHold(l, cache.truth, At(old(cache.truth), lh), |lh|)
      ensures cache.truth[l.start] == PutHead(old(cache.truth)[l.start], lh)
    {
      ghost var vals, h, d0, w0 := At(cache.truth, lh), cache.truth[l.start], cache.disk, cache.writes;
      WriteLog(p);
      ghost var d1, w1 := cache.disk, cache.writes;
      WriteHead(p);
      IssuedOne(d0, w0, d1, w1, LogWrites(l, vals), Write(l.start, PutHead(h, lh)));
    }

    /** The second half: install the blocks, then clear the header. */
    method InstallAll(p: nat, ghost vals: seq<Block>)
      requires Idle() && PinsWithin(cache.buf, lh)
      requires |vals| == |lh| && SlotsHold(l, cache.truth, vals, |lh|)
      modifies this`lh, cache
      ensures Idle() && PinsWithin(cache.buf, []) && lh == [] && |old(cache.truth)| == l.size
      ensures Issued(old(cache.disk), old(cache.writes), cache.disk, cache.writes,
                     InstallWrites(old(lh), vals) + [Write(l.start, PutHead(old(cache.truth)[l.start], []))])
    {
      ghost var bs, h, d0, w0 := lh, cache.truth[l.start], cache.disk, cache.writes;
      InstallTrans(p, vals);
      ghost var d1, w1 := cache.disk, cache.writes;
      lh := [];
      WriteHead(p);
      IssuedOne(d0, w0, d1, w1, InstallWrites(bs, vals), Write(l.start, PutHead(h, [])));
    }

    /** read_head loads the on-disk header into the in-memory one. */
    method ReadHead(p: nat)
      requires Idle() && PinsWithin(cache.buf, []) && WellFormed(l, cache.disk)
      requires |HeadBlocks(cache.disk[l.start])| + 1 <= cache.nbuf
      modifies this`lh, cache
      ensures Idle() && PinsWithin(cache.buf, [])
      ensures cache.disk == old(cache.disk) && cache.truth == old(cache.truth) && cache.writes == old(cache.writes)
      ensures lh == HeadBlocks(cache.disk[l.start])
    {
      HeaderClean(l, cache.buf, cache.disk, cache.truth, cache.touched, []);
      ghost var b0 := cache.buf;
      var i := ReadBlock(p, l.start, [], {});
      ghost var b1 := cache.buf;
      var h := cache.buf[i].data;
      var blocks := HeaderBlocks(h);
      cache.Brelse(p, i);
      HeadPins(b0, b1, cache.buf, i, p, l.start, h, []);
      lh := blocks;
    }

    /** The loop of read_head. */
    method HeaderBlocks(h: Block) returns (blocks: seq<nat>)
      requires HeadCount(h) <= LOGSIZE
      ensures blocks == HeadBlocks(h)
    {
      WordsAt(h, 0);
      var n := GetWord(h, 0);
      blocks := [];
      var k := 0;
      while k < n
        invariant 0 <= k <= n && blocks == Words(h)[1..1 + k]
      {
        WordsAt(h, 1 + k);
        blocks := blocks + [GetWord(h, 1 + k)];
        k := k + 1;
      }
    }

    /** recover_from_log issues exactly the block writes of RecoveryWrites. */
    method Recover(p: nat)
      requires Idle() && PinsWithin(cache.buf, []) && WellFormed(l, cache.disk)
      requires |HeadBlocks(cache.disk[l.start])| + 1 <= cache.nbuf
      modifies this`lh, cache
      ensures Idle() && lh == []
      ensures Issued(old(cache.disk), old(cache.writes), cache.disk, cache.writes,
                     RecoveryWrites(l, old(cache.disk)))
      ensures cache.disk == Recovered(l, old(cache.disk))
    {
      ghost var d0, w0 := cache.disk, cache.writes;
      AllClean(cache.buf, cache.disk, cache.truth, cache.touched);
      ReadHead(p);
      InstallAll(p, LogSlots(l, d0, |lh|));
    }
  }

  // ---------- what the methods above keep track of ----------

  /** Between the two moments the block writes `ws` were issued, and they made the disk. */
  ghost predicate Issued(d0: Disk, w0: seq<Write>, d: Disk, w: seq<Write>, ws: seq<Write>) {
    w == w0 + ws && InRange(d0, ws) && d == Apply(d0, ws)
  }

  lemma IssuedOne(d0: Disk, w0: seq<Write>, d: Disk, w: seq<Write>, ws: seq<Write>, x: Write)
    requires Issued(d0, w0, d, w, ws) && x.blockno < |d|
    ensures Issued(d0, w0, d[x.blockno := x.data], w + [x], ws + [x])
  {
    ApplySnoc(d0, ws, x);
    assert w0 + ws + [x] == w0 + (ws + [x]);
  }

  lemma IssuedNext(d0: Disk, w0: seq<Write>, d: Disk, w: seq<Write>, ws: seq<Write>, k: nat)
    requires k < |ws| && Issued(d0, w0, d, w, ws[..k]) && ws[k].blockno < |d|
    ensures Issued(d0, w0, d[ws[k].blockno := ws[k].data], w + [ws[k]], ws[..k + 1])
  {
    IssuedOne(d0, w0, d, w, ws[..k], ws[k]);
    assert ws[..k + 1] == ws[..k] + [ws[k]];
  }

  lemma {:induction false} IssuedMore(d0: Disk, w0: seq<Write>, d1: Disk, w1: seq<Write>, d: Disk, w: seq<Write>,
                                      ws: seq<Write>, more: seq<Write>)
    requires Issued(d0, w0, d1, w1, ws) && Issued(d1, w1, d, w, more)
    ensures Issued(d0, w0, d, w, ws + more)
    decreases |more|
  {
    if more == [] {
      assert ws + more == ws && w == w1;
    } else {
      var n := |more| - 1;
      IssuedMore(d0, w0, d1, w1, Apply(d1, more[..n]), w1 + more[..n], ws, more[..n]);
      IssuedOne(d0, w0, Apply(d1, more[..n]), w1 + more[..n], ws + more[..n], more[n]);
      assert ws + more[..n] + [more[n]] == ws + more;
      assert w1 + more[..n] + [more[n]] == w1 + more;
    }
  }

  lemma CommitJoins(l: Layout, d0: Disk, w0: seq<Write>, d1: Disk, w1: seq<Write>, d: Disk, w: seq<Write>,
                    h: Block, bs: seq<nat>, vals: seq<Block>)
    requires 0 < |bs| == |vals| <= LOGSIZE
    requires Issued(d0, w0, d1, w1, LogWrites(l, vals) + [Write(l.start, PutHead(h, bs))])
    requires Issued(d1, w1, d, w, InstallWrites(bs, vals) + [Write(l.start, PutHead(PutHead(h, bs), []))])
    ensures Issued(d0, w0, d, w, CommitWrites(l, h, bs, vals))
  {
    var a, b := LogWrites(l, vals) + [Write(l.start, PutHead(h, bs))], [Write(l.start, PutHead(PutHead(h, bs), []))];
    IssuedMore(d0, w0, d1, w1, d, w, a, InstallWrites(bs, vals) + b);
    assert a + (InstallWrites(bs, vals) + b) == a + InstallWrites(bs, vals) + b;
  }

  ghost predicate SameOutsideLog(l: Layout, d: Disk, e: Disk) {
    |d| == |e| == l.size && l.start < l.size && d[l.start] == e[l.start]
    && forall b :: l.IsHome(b) ==> d[b] == e[b]
  }

  ghost predicate SlotsHold(l: Layout, d: Disk, vals: seq<Block>, n: nat) {
    |d| == l.size && n <= |vals| && n + 1 <= l.nlog && l.Valid()
    && forall i :: 0 <= i < n ==> d[l.start + 1 + i] == vals[i]
  }

  lemma SlotFilled(l: Layout, d0: Disk, d: Disk, vals: seq<Block>, k: nat)
    requires SameOutsideLog(l, d0, d) && SlotsHold(l, d, vals, k) && k < |vals| && k + 2 <= l.nlog
    ensures var e := d[l.start + k + 1 := vals[k]];
            SameOutsideLog(l, d0, e) && SlotsHold(l, e, vals, k + 1)
  {
  }

  lemma SlotsKept(l: Layout, d: Disk, vals: seq<Block>, n: nat, b: nat, v: Block)
    requires SlotsHold(l, d, vals, n) && l.IsHome(b)
    ensures SlotsHold(l, d[b := v], vals, n) && d[b := v][l.start] == d[l.start]
  {
  }

  lemma PinsShrink(was: seq<Buf>, buf: seq<Buf>, bs: seq<nat>, k: nat)
    requires |was| == |buf| && k < |bs| && PinsWithin(was, bs[k..])
    requires forall i :: 0 <= i < |buf| && buf[i].dirty ==>
               was[i].dirty && buf[i].blockno == was[i].blockno && buf[i].blockno != bs[k]
    ensures PinsWithin(buf, bs[k + 1..])
  {
    assert bs[k..] == [bs[k]] + bs[k + 1..];
  }

  /** The header block is never pinned, so disk and cache agree on it. */
  lemma HeaderClean(l: Layout, buf: seq<Buf>, disk: Disk, truth: Disk, touched: set<nat>, bs: seq<nat>)
    requires Coherent(buf, disk, truth, touched) && PinsWithin(buf, bs) && Loggable(l, bs)
    requires l.Valid() && |disk| == l.size
    ensures disk[l.start] == truth[l.start]
  {
    assert !Pinned(buf, l.start);
  }

  lemma AllClean(buf: seq<Buf>, disk: Disk, truth: Disk, touched: set<nat>)
    requires Coherent(buf, disk, truth, touched) && PinsWithin(buf, [])
    ensures disk == truth
  {
    forall b | 0 <= b < |disk|
      ensures disk[b] == truth[b]
    {
      assert !Pinned(buf, b);
    }
  }

  /** Reading, rewriting and releasing one unpinned block leaves the cache quiet and the pins alone. */
  lemma HeadPins(b0: seq<Buf>, b1: seq<Buf>, b2: seq<Buf>, i: nat, p: nat, b: nat, data: Block, bs: seq<nat>)
    requires Quiet(b0) && PinsWithin(b0, bs) && ReadInto(b0, b1, i, p, b) && |b2| == |b1|
    requires b2 == b1[i := b1[i].(data := data, dirty := b2[i].dirty, lock := Free, refcnt := 0)]
    requires b2[i].dirty ==> b1[i].dirty
    ensures Quiet(b2) && PinsWithin(b2, bs)
  {
  }

  ghost predicate Exclusive(b: Buf, p: nat) {
    b.valid && b.lock == Held(p) && b.refcnt == 1
  }

  ghost function Transferred(buf: seq<Buf>, to: nat, from: nat): (r: seq<Buf>)
    requires to < |buf| && from < |buf|
  {
    buf[to := buf[to].(data := buf[from].data, dirty := false, lock := Free, refcnt := 0)]
       [from := buf[from].(lock := Free, refcnt := 0)]
  }

  /** After a copy, nothing is referenced, and the pins are the old ones except the block written. */
  lemma CopiedPins(b0: seq<Buf>, b1: seq<Buf>, b2: seq<Buf>, b3: seq<Buf>, x: nat, y: nat, p: nat,
                   slot: nat, home: nat, intoLog: bool)
    requires Quiet(b0) && DirtySound(b2)
    requires ReadInto(b0, b1, x, p, slot) && ReadInto(b1, b2, y, p, home) && x != y
    requires b3 == if intoLog then Transferred(b2, x, y) else Transferred(b2, y, x)
    ensures Quiet(b3)
    ensures forall i :: 0 <= i < |b3| && b3[i].dirty ==>
              && b0[i].dirty && b3[i].blockno == b0[i].blockno
              && b3[i].blockno != if intoLog then slot else home
  {
    OthersElsewhere(b2, if intoLog then x else y);
  }

  /** An uncached block of `bs` is not pinned, which leaves room for it. */
  lemma RoomBeside(buf: seq<Buf>, bs: seq<nat>, b: nat, held: set<nat>)
    requires DirtySound(buf) && PinsWithin(buf, bs) && b in bs && |bs| + |held| <= |buf|
    requires forall i :: 0 <= i < |buf| ==> !buf[i].HasKey(ROOTDEV, b)
    requires forall i :: 0 <= i < |buf| && buf[i].refcnt > 0 ==> i in held
    ensures exists i :: 0 <= i < |buf| && buf[i].Evictable()
  {
    var k :| 0 <= k < |bs| && bs[k] == b;
    var rest := Without(bs, k);
    forall i | 0 <= i < |buf| && buf[i].dirty
      ensures buf[i].blockno in rest
    {
      assert !buf[i].HasKey(ROOTDEV, b);
      var m :| 0 <= m < |bs| && bs[m] == buf[i].blockno;
      assert rest[if m < k then m else m - 1] == bs[m];
    }
    RoomExists(buf, rest, held);
  }
}
