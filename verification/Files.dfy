/**
 Open files on top of the inode layer: reads that leave the disk alone, and writes cut into
 transactions that fit the log.
 */
module Files {
  import opened Numbers
  import opened Blocks
  import opened Ownership
  import opened Growth
  import opened FileContents
  import opened InodeTable
  import opened Writing
  import opened FileSystem

  class File {
    const fs: FileSystem
    const inum: nat
    const readable: bool
    const writable: bool
    var off: nat

    constructor (fs: FileSystem, inum: nat, readable: bool, writable: bool)
      ensures this.fs == fs && this.inum == inum && this.readable == readable && this.writable == writable && off == 0
    {
      this.fs, this.inum, this.readable, this.writable, off := fs, inum, readable, writable, 0;
    }

    ghost predicate Open()
      reads this, fs
    {
      fs.Valid() && inum < |fs.ino| && fs.ino[inum].kind != 0 && off < U32
    }

    /** Read at the offset and move it; no block is logged, so no transaction is needed. */
    method Fileread(n: nat, device: int) returns (r: int, dst: seq<bv8>)
      requires Open() && n < 0x8000_0000
      modifies this, fs
      ensures fs.S() == old(fs.S()) && fs.logged == old(fs.logged) && off == (old(off) + if r > 0 then r else 0) % U32
      ensures !readable ==> r == -1
      ensures readable && fs.ino[inum].kind != T_DEV && old(off) > fs.ino[inum].size ==> r == -1
      ensures readable && fs.ino[inum].kind != T_DEV && old(off) <= fs.ino[inum].size ==>
                r == Clipped(old(off), n, fs.ino[inum].size)
                && dst == Contents(fs.d, fs.ino[inum])[old(off)..old(off) + r]
    {
      if !readable {
        return -1, [];
      }
      r, dst := fs.Readi(inum, off, n, device);
      if r > 0 {
        off := (off + r) % U32;
      }
    }

    /** One chunk of filewrite between begin_op and end_op. */
    method Transaction(src: seq<bv8>, n: nat) returns (r: Outcome, ghost tx: set<nat>)
      requires Open() && fs.ino[inum].kind != T_DEV && 0 < n == |src| <= CHUNK
      modifies this, fs
      ensures r == Panic ==> NoneFree(fs)
      ensures r != Panic ==> |tx| <= MAXOPBLOCKS && Call(fs.sb, old(fs.d), fs.d, tx)
      ensures r != Panic ==> fs.Valid() && Settled(old(fs.S()), fs.S(), inum, old(off), off, src, n, r)
    {
      ValidIsGood(fs);
      fs.logged := {};
      ghost var wrote;
      ghost var size := fs.ino[inum].size;
      r, wrote := fs.Writei(inum, src, off, 0);
      tx := {};
      if r != Panic {
        tx := fs.logged;
        ValidIsGood(fs);
        if !Refused(size, off, |src|) {
          ChunkFits(size, off, |src|);
          SubsetSize(tx, wrote);
        }
        if r.n > 0 {
          off := off + r.n;
        }
        if r.n >= 0 && r.n != n {
          assert false;    // the "short filewrite" panic
        }
      }
    }

    /**
     filewrite: `n` bytes of `src` at the offset, in transactions of at most CHUNK bytes.  `device` is
     what the device answers to each chunk.  `w` bytes have been accepted in whole chunks when the
     call ends; `txs` are the blocks each completed transaction logged.
     */
    method Filewrite(src: seq<bv8>, n: int, device: nat -> int)
      returns (r: WriteEnd, ghost w: nat, ghost txs: seq<set<nat>>)
      requires Open() && n <= |src| && n < 0x8000_0000
      modifies this, fs
      ensures forall t :: t in txs ==> |t| <= MAXOPBLOCKS
      ensures r == OutOfBlocks ==> NoneFree(fs)
      ensures r != OutOfBlocks ==> fs.Valid()
      ensures !writable ==> r == Returned(-1) && fs.S() == old(fs.S()) && off == old(off)
      ensures writable && old(fs.ino)[inum].kind != T_DEV ==>
                FileEnd(old(fs.S()), fs.S(), inum, old(off), off, src, n, r, w)
      ensures writable && old(fs.ino)[inum].kind == T_DEV ==>
                fs.S() == old(fs.S()) && DeviceEnd(device, old(off), off, n, r, w)
    {
      if !writable {
        return Returned(-1), 0, [];
      }
      if fs.ino[inum].kind == T_DEV {
        r, w := DeviceChunks(n, device);
        return r, w, [];
      }
      r, w, txs := FileChunks(src, n);
    }

    /** The loop of filewrite on a device: writei passes each chunk on and touches neither disk nor log. */
    method DeviceChunks(n: int, device: nat -> int) returns (r: WriteEnd, ghost w: nat)
      requires off < U32
      modifies this
      ensures DeviceEnd(device, old(off), off, n, r, w)
    {
      var i, k := 0, 0;
      while i < n
        invariant 0 <= i && i == ChunksTaken(n, k) && off == (old(off) + i) % U32 && TookWhole(device, n, k)
        decreases n - i
      {
        var n1 := if n - i > CHUNK then CHUNK else n - i;
        var x := device(k);
        NextTaken(n, i, k, n1);
        Wraps(old(off) + i, x);
        if x > 0 {
          off := (off + x) % U32;
        }
        if x < 0 || x != n1 {
          assert StoppedIn(device, old(off), off, n, if x < 0 then Returned(-1) else ShortWrite, k);
          return if x < 0 then Returned(-1) else ShortWrite, i;
        }
        i := i + n1;
        k := k + 1;
      }
      r := Returned(if i == n then n else -1);
      assert StoppedIn(device, old(off), off, n, r, k);
      return r, i;
    }

    /** The loop of filewrite on a file with blocks. */
    method FileChunks(src: seq<bv8>, n: int) returns (r: WriteEnd, ghost w: nat, ghost txs: seq<set<nat>>)
      requires Open() && fs.ino[inum].kind != T_DEV && n <= |src| && n < 0x8000_0000
      modifies this, fs
      ensures forall t :: t in txs ==> |t| <= MAXOPBLOCKS
      ensures r == OutOfBlocks ==> NoneFree(fs)
      ensures r != OutOfBlocks ==> fs.Valid()
      ensures FileEnd(old(fs.S()), fs.S(), inum, old(off), off, src, n, r, w)
    {
      txs := [];
      assert src[..0] == [];
      ghost var s0, off0 := fs.S(), off;
      assert FileOk(fs.d, fs.ino[inum]);
      var i := 0;
      while i < n
        invariant Underway(s0, fs.S(), inum, off0, src, i, n) && fs.Valid() && off == off0 + i
        invariant forall t :: t in txs ==> |t| <= MAXOPBLOCKS
      {
        ghost var tx;
        var x, i';
        x, i', tx := NextChunk(src, i, n, s0, off0);
        if x == Panic {
          return OutOfBlocks, i, txs;
        }
        txs := txs + [tx];
        if x.n < 0 {
          break;
        }
        i := i';
      }
      return Returned(if i == n then n else -1), i, txs;
    }

    /** One round of filewrite. */
    method NextChunk(src: seq<bv8>, i: nat, n: int, ghost s0: State, ghost off0: nat)
      returns (r: Outcome, i': nat, ghost tx: set<nat>)
      requires Open() && Underway(s0, fs.S(), inum, off0, src, i, n) && off == off0 + i && i < n <= |src|
      requires s0.ino[inum].size <= MAXSIZE && fs.ino[inum].kind != T_DEV
      modifies this, fs
      ensures r == Panic ==> NoneFree(fs)
      ensures r != Panic ==> |tx| <= MAXOPBLOCKS
      ensures r != Panic && r.n < 0 ==> fs.Valid() && fs.S() == old(fs.S()) && off == old(off)
      ensures r != Panic && r.n < 0 ==> i < n && i == Accepted(s0.ino[inum].size, off0, n)
      ensures r != Panic && r.n >= 0 ==> i < i' && fs.Valid() && off == off0 + i'
      ensures r != Panic && r.n >= 0 ==> Underway(s0, fs.S(), inum, off0, src, i', n)
    {
      var n1 := n - i;
      if n1 > CHUNK {
        n1 := CHUNK;
      }
      i' := i + n1;
      ghost var s, offi := fs.S(), off;
      var chunk := src[i..i'];
      r, tx := Transaction(chunk, n1);
      if r != Panic {
        Advanced(s0, s, fs.S(), inum, off0, offi, off, src, chunk, i, i', n, n1, r);
      }
    }
  }

  /** How a call of filewrite ends: with a return value, or in one of the panics it can meet. */
  datatype WriteEnd = Returned(n: int) | OutOfBlocks | ShortWrite

  /** A file with blocks: the accepted bytes are written at the offset, all of them or the call reports -1. */
  ghost predicate FileEnd(s: State, s': State, inum: nat, off: nat, off': nat, src: seq<bv8>, n: int, r: WriteEnd,
                          w: nat) {
    && r != ShortWrite
    && (r != OutOfBlocks ==>
          && inum < |s.ino| && w == Accepted(s.ino[inum].size, off, n) && w <= |src|
          && Wrote(s, s', inum, off, src[..w]) && off' == off + w && r == Returned(if w == n then n else -1))
  }

  /** The bytes in the first `k` chunks of `n`. */
  ghost function ChunksTaken(n: int, k: nat): (w: int) {
    if k == 0 then 0 else if k * CHUNK <= n then k * CHUNK else n
  }

  ghost function ChunkSize(n: int, k: nat): (m: int) {
    ChunksTaken(n, k + 1) - ChunksTaken(n, k)
  }

  ghost predicate TookWhole(device: nat -> int, n: int, k: nat) {
    forall c: nat :: c < k ==> device(c) == ChunkSize(n, c)
  }

  /**
   A device that took all chunks before chunk `k` whole.  Then either that was everything, or it
   refused chunk `k`, or it took only a part of it, which is a panic.
   */
  ghost predicate StoppedIn(device: nat -> int, off: nat, off': nat, n: int, r: WriteEnd, k: nat) {
    var w := ChunksTaken(n, k);
    && TookWhole(device, n, k) && 0 <= off + w
    && if n <= w then r == Returned(if w == n then n else -1) && off' == (off + w) % U32
       else
         && device(k) != ChunkSize(n, k)
         && r == (if device(k) < 0 then Returned(-1) else ShortWrite)
         && off' == (off + w + if device(k) > 0 then device(k) else 0) % U32
  }

  ghost predicate DeviceEnd(device: nat -> int, off: nat, off': nat, n: int, r: WriteEnd, w: nat) {
    exists k: nat :: w == ChunksTaken(n, k) && StoppedIn(device, off, off', n, r, k)
  }

  lemma NextTaken(n: int, i: nat, k: nat, n1: nat)
    requires i == ChunksTaken(n, k) && i < n && n1 == if n - i > CHUNK then CHUNK else n - i
    ensures ChunkSize(n, k) == n1 > 0 && ChunksTaken(n, k + 1) == i + n1
  {
    assert (k + 1) * CHUNK == k * CHUNK + CHUNK;
  }

  lemma Wraps(a: nat, x: int)
    ensures x >= 0 ==> (a % U32 + x) % U32 == (a + x) % U32
  {
  }

  ghost predicate NoneFree(fs: FileSystem)
    reads fs
  {
    forall b: nat :: b < |fs.o| ==> fs.o[b] != Free
  }

  ghost predicate Wrote(s: State, s': State, i: nat, off: nat, data: seq<bv8>) {
    if data == [] then s' == s else Written(s, s', i, off, data)
  }

  /** How many bytes filewrite gets through: all of them, or the whole chunks that fit into a file. */
  ghost function Accepted(size: nat, off: nat, n: int): (w: nat) {
    if n <= 0 || off > size || off > MAXSIZE then 0
    else if off + n <= MAXSIZE then n
    else (MAXSIZE - off) / CHUNK * CHUNK
  }

  /** `i` of `n` bytes have been written by whole chunks. */
  ghost predicate Underway(s0: State, s: State, inum: nat, off: nat, src: seq<bv8>, i: int, n: int) {
    && 0 <= i <= |src| && (i == 0 || i <= n) && (i == n || i % CHUNK == 0)
    && inum < |s0.ino| && |s.ino| == |s0.ino| && s.ino[inum].kind == s0.ino[inum].kind
    && Wrote(s0, s, inum, off, src[..i])
    && (i > 0 ==> off <= s0.ino[inum].size && off + i <= MAXSIZE && s.ino[inum].size == Max(s0.ino[inum].size, off + i))
  }

  /** A transaction that ran to its end: refused, or the chunk written and the offset moved. */
  ghost predicate Settled(s: State, s': State, inum: nat, off: nat, off': nat, src: seq<bv8>, n: nat, r: Outcome) {
    && inum < |s.ino| && r.Done?
    && if Refused(s.ino[inum].size, off, n) then r.n == -1 && s' == s && off' == off
       else r.n == n && Written(s, s', inum, off, src) && off' == off + n
  }

  ghost predicate ChunkOf(i: nat, i': nat, n: int, n1: nat) {
    i < n && n1 == (if n - i > CHUNK then CHUNK else n - i) && i' == i + n1
  }

  /** The chunk that writei refuses is the one after the last that fits. */
  lemma StoppedAt(size0: nat, size: nat, off: nat, i: nat, i': nat, n: int, n1: nat)
    requires ChunkOf(i, i', n, n1) && i % CHUNK == 0 && size0 <= MAXSIZE
    requires if i == 0 then size == size0 else off <= size0 && off + i <= MAXSIZE && size == Max(size0, off + i)
    requires Refused(size, off + i, n1)
    ensures i == Accepted(size0, off, n)
  {
    if i > 0 || off <= size0 {
      LastChunk(MAXSIZE - off, i, i', n, n1);
    }
  }

  lemma LastChunk(room: nat, i: nat, i': nat, n: int, n1: nat)
    requires ChunkOf(i, i', n, n1) && i % CHUNK == 0 && i <= room < i'
    ensures n > room && room / CHUNK * CHUNK == i
  {
    var q := i / CHUNK;
    assert i == q * 1536 && 0 <= room - i < 1536;
    assert room / 1536 == q;
  }

  lemma WrittenTrans(s0: State, s: State, s': State, inum: nat, off: nat, data: seq<bv8>, chunk: seq<bv8>)
    requires inum < |s0.ino| && off <= s0.ino[inum].size
    requires Wrote(s0, s, inum, off, data) && Written(s, s', inum, off + |data|, chunk)
    ensures Written(s0, s', inum, off, data + chunk)
  {
    if data == [] {
      assert data + chunk == chunk;
    } else {
      SpliceMore(Contents(s0.d, s0.ino[inum]), off, data, chunk);
    }
  }

  lemma WrittenSize(s: State, s': State, inum: nat, off: nat, data: seq<bv8>)
    requires Written(s, s', inum, off, data)
    ensures s'.ino[inum].size == Max(s.ino[inum].size, off + |data|)
  {
    assert |Contents(s'.d, s'.ino[inum])| == s'.ino[inum].size;
  }

  lemma ChunkEnds(i: nat, i': nat, n: int, n1: nat)
    requires ChunkOf(i, i', n, n1) && i % CHUNK == 0
    ensures i < i' <= n && (i' == n || i' % CHUNK == 0)
  {
  }

  lemma Chunked(s0: State, s: State, s': State, inum: nat, off: nat, offi: nat, src: seq<bv8>, chunk: seq<bv8>,
                i: nat, i': nat, n: int, n1: nat)
    requires Underway(s0, s, inum, off, src, i, n) && n <= |src| && ChunkOf(i, i', n, n1)
    requires offi == off + i && chunk == src[i..i'] && Written(s, s', inum, offi, chunk)
    requires !Refused(s.ino[inum].size, offi, n1)
    ensures Underway(s0, s', inum, off, src, i', n)
  {
    ChunkEnds(i, i', n, n1);
    WrittenSize(s, s', inum, offi, chunk);
    WrittenTrans(s0, s, s', inum, off, src[..i], chunk);
    assert src[..i] + chunk == src[..i'];
  }

  /** What one transaction means for the whole call. */
  lemma Advanced(s0: State, s: State, s': State, inum: nat, off0: nat, offi: nat, off': nat, src: seq<bv8>,
                 chunk: seq<bv8>, i: nat, i': nat, n: int, n1: nat, r: Outcome)
    requires Underway(s0, s, inum, off0, src, i, n) && n <= |src| && ChunkOf(i, i', n, n1)
             && s0.ino[inum].size <= MAXSIZE
    requires offi == off0 + i && chunk == src[i..i'] && Settled(s, s', inum, offi, off', chunk, n1, r)
    ensures r.n < 0 ==> s' == s && off' == off0 + i && i == Accepted(s0.ino[inum].size, off0, n)
    ensures r.n >= 0 ==> i < i' && Underway(s0, s', inum, off0, src, i', n) && off' == off0 + i'
  {
    if r.n < 0 {
      StoppedAt(s0.ino[inum].size, s.ino[inum].size, off0, i, i', n, n1);
    } else {
      Chunked(s0, s, s', inum, off0, offi, src, chunk, i, i', n, n1);
    }
  }
}
