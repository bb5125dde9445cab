/**
 How large the log region and the buffer cache have to be.  `log_write` compares with `log.size - 1`
 before it takes the lock and before it looks for the block in the log, while `begin_op` reserves
 LOGSIZE blocks; mkfs makes the region LOGSIZE blocks long, and the kernel has as many buffers.
 */
module LogCapacity {
  import opened Numbers
  import opened Blocks
  import opened LogDisk
  import opened LogMachine
  import opened LogBuffers

  // ---------- when the size check fires ----------

  /**
   A write that an operation may make, and whose block finds a buffer, meets the size panic exactly when
   the log is full.  In a region of more than LOGSIZE blocks that takes all budgets used up and a
   block that is already logged.
   */
  lemma TestPanicsIff(l: Layout, s: State, p: nat, b: nat, data: Block)
    requires Counted(l, s) && CanTest(l, s, p, b)
    ensures DoTest(l, s, p, b, data).phase == Panicked(TooBig)
       <==> !NoRoomFor(s, b) && (|s.lh| >= LOGSIZE || |s.lh| >= l.nlog - 1)
    ensures l.nlog >= LOGSIZE + 1 ==> (DoTest(l, s, p, b, data).phase == Panicked(TooBig) <==> |s.lh| == LOGSIZE)
    ensures l.nlog >= LOGSIZE + 1 && DoTest(l, s, p, b, data).phase == Panicked(TooBig) ==>
              Unused(s.procs) == 0 && b in s.lh
  {
    SumsBound(s.procs);
  }

  /** In no run from `s0` does an operation that may still append meet log_write's size panic. */
  ghost predicate SizeCheckSafe(l: Layout, s0: State) {
    forall ts, p, b, data :: Legal(l, s0, ts) ==> BudgetedWriteSafe(l, Exec(l, s0, ts), p, b, data)
  }

  ghost predicate BudgetedWriteSafe(l: Layout, s: State, p: nat, b: nat, data: Block) {
    CanTest(l, s, p, b) && s.procs[p].used < MAXOPBLOCKS ==> DoTest(l, s, p, b, data).phase != Panicked(TooBig)
  }

  lemma LargeLogIsSafe(l: Layout, s: State, p: nat, b: nat, data: Block)
    requires Counted(l, s) && (l.nlog >= LOGSIZE + 1 || l.nlog >= |s.lh| + 2)
    ensures BudgetedWriteSafe(l, s, p, b, data)
  {
    SumsBound(s.procs);
  }

  // ---------- runs that fill the log ----------

  /** Three processes log in turn: how many of the first `i` blocks process `q` has logged. */
  function Share(i: nat, q: nat): (n: nat)
    requires q < 3
  {
    (i + 2 - q) / 3
  }

  lemma ShareStep(i: nat, q: nat)
    requires q < 3
    ensures Share(i + 1, q) == Share(i, q) + (if q == i % 3 then 1 else 0)
    ensures i < LOGSIZE && q == i % 3 ==> Share(i, q) < MAXOPBLOCKS
  {
  }

  /** When process `q` is next, counted from block `i` on. */
  function Turn(i: nat, q: nat): (t: nat)
    requires q < 3
    ensures t < 3 && (i + t) % 3 == q
  {
    (q + 3 - i % 3) % 3
  }

  lemma ShareTurn(i: nat, m: nat, q: nat)
    requires q < 3 && m <= 3
    ensures Share(i + m, q) == Share(i, q) + (if Turn(i, q) < m then 1 else 0)
  {
    if m > 0 {
      ShareTurn(i, m - 1, q);
      ShareStep(i + m - 1, q);
    }
  }

  /** The process whose turn it is `t` blocks after the first `i`, and what it has logged. */
  lemma Next(i: nat, t: nat) returns (p: nat)
    requires t < 3
    ensures p < 3 && Turn(i, p) == t && forall q: nat :: q < 3 && Turn(i, q) == t ==> q == p
    ensures i + t < LOGSIZE ==> Share(i, p) < MAXOPBLOCKS
  {
    p := (i + t) % 3;
    ShareTurn(i, t, p);
    ShareStep(i + t, p);
  }

  /** Nothing has reached the disk since the freshly made disk was mounted. */
  ghost predicate Untouched(l: Layout, base: Disk, s: State) {
    && |s.disk| == |s.view| == |s.base| == l.size && WellFormed(l, s.disk) && HeadBlocks(s.disk[l.start]) == []
    && s.base == base && s.durable == 0
  }

  /** The log holds the `i` blocks behind the log region, all with contents `data`. */
  ghost predicate Holding(l: Layout, s: State, i: nat, data: Block) {
    && |s.lh| == i && |s.view| == l.size && l.start + l.nlog + i <= l.size
    && forall j :: 0 <= j < i ==> s.lh[j] == l.start + l.nlog + j && s.view[l.start + l.nlog + j] == data
  }

  /**
   Three operations in progress have logged `i` blocks in turn; then the first `j` of them tested for one
   more block each, and the first `k` of those appended it.
   */
  ghost predicate RaceAt(l: Layout, base: Disk, s: State, i: nat, j: nat, k: nat, data: Block) {
    && Untouched(l, base, s) && Holding(l, s, i + k, data) && k <= j <= 3 && l.start + l.nlog + i + j <= l.size
    && s.phase.Serving? && s.outstanding == 3 && !s.committing && |s.procs| >= 3
    && (forall q: nat :: q < 3 ==> Racer(l, s.procs[q], i, j, k, q, data))
    && (forall q: nat :: 3 <= q < |s.procs| ==> s.procs[q].Idle?)
  }

  ghost predicate Racer(l: Layout, x: Proc, i: nat, j: nat, k: nat, q: nat, data: Block)
    requires q < 3
  {
    var t := Turn(i, q);
    && x.InOp? && x.used == Share(i, q) + (if t < k then 1 else 0)
    && x.pending == if k <= t < j then Passed(l.start + l.nlog + i + t, data) else Nothing
  }

  /** Three operations are in progress and have logged `i` blocks. */
  ghost predicate Filled(l: Layout, base: Disk, s: State, i: nat, data: Block) {
    RaceAt(l, base, s, i, 0, 0, data)
  }

  lemma RaceBusy(l: Layout, base: Disk, s: State, i: nat, j: nat, data: Block)
    requires RaceAt(l, base, s, i, j, 0, data)
    ensures |Busy(s)| <= i + j && forall b :: b in Busy(s) ==> b < l.start + l.nlog + i + j
  {
    var r := Range(l.start + l.nlog, i + j);
    forall b | b in Busy(s) ensures b in r {
      if b !in s.lh {
        var p :| 0 <= p < |s.procs| && s.procs[p].InOp? && s.procs[p].pending.Passed? && s.procs[p].pending.b == b;
        assert p < 3 && Racer(l, s.procs[p], i, j, 0, p, data);
      }
    }
    SubsetSize(Busy(s), r);
  }

  /** One process tested or appended, in turn; the others are where they were. */
  lemma RacersStep(l: Layout, ps: seq<Proc>, ps': seq<Proc>, i: nat, j: nat, k: nat, j': nat, k': nat, p: nat,
                   data: Block)
    requires |ps| == |ps'| >= 3 && p < 3 && ps' == ps[p := ps'[p]]
    requires (j' == j + 1 && k' == k && Turn(i, p) == j) || (j' == j && k' == k + 1 && Turn(i, p) == k)
    requires forall q: nat :: q < 3 && Turn(i, q) == Turn(i, p) ==> q == p
    requires forall q: nat :: q < 3 ==> Racer(l, ps[q], i, j, k, q, data)
    requires Racer(l, ps'[p], i, j', k', p, data)
    ensures forall q: nat :: q < 3 ==> Racer(l, ps'[q], i, j', k', q, data)
  {
    forall q: nat | q < 3 ensures Racer(l, ps'[q], i, j', k', q, data) {
      assert Racer(l, ps[q], i, j, k, q, data);
    }
  }

  lemma TestPasses(l: Layout, s: State, p: nat, b: nat, data: Block)
    requires CanTest(l, s, p, b) && |s.lh| < LOGSIZE && |s.lh| + 2 <= l.nlog && s.outstanding >= 1 && |Busy(s)| < s.nbuf
    ensures DoTest(l, s, p, b, data)
         == s.(procs := s.procs[p := InOp(s.procs[p].op, s.procs[p].used, Passed(b, data))])
  {
  }

  lemma RaceTest(l: Layout, base: Disk, s: State, i: nat, j: nat, data: Block) returns (p: nat, b: nat)
    requires RaceAt(l, base, s, i, j, 0, data) && j < 3 && i + j < LOGSIZE && i + 2 <= l.nlog && i + j < s.nbuf
    requires l.start + l.nlog + i + j < l.size
    ensures CanTest(l, s, p, b) && RaceAt(l, base, DoTest(l, s, p, b, data), i, j + 1, 0, data)
  {
    p := Next(i, j);
    b := l.start + l.nlog + i + j;
    assert Racer(l, s.procs[p], i, j, 0, p, data);
    RaceBusy(l, base, s, i, j, data);
    TestPasses(l, s, p, b, data);
    RacersStep(l, s.procs, DoTest(l, s, p, b, data).procs, i, j, 0, j + 1, 0, p, data);
  }

  /** Logging the next block behind the log region. */
  lemma HoldMore(l: Layout, base: Disk, s: State, i: nat, p: nat, b: nat, data: Block) returns (s': State)
    requires Untouched(l, base, s) && Holding(l, s, i, data) && b == l.start + l.nlog + i < l.size
    requires CanAppend(s, p) && s.procs[p].pending == Passed(b, data)
    ensures s' == DoAppend(s, p) && Untouched(l, base, s') && Holding(l, s', i + 1, data)
    ensures s'.procs == s.procs[p := InOp(s.procs[p].op, s.procs[p].used + 1, Nothing)]
    ensures s'.phase == s.phase && s'.outstanding == s.outstanding && s'.committing == s.committing
  {
    assert forall j :: 0 <= j < i ==> s.lh[j] < b;
    assert b !in s.lh;
    s' := s.(view := s.view[b := data], hist := s.hist + [Event(s.procs[p].op, b, data)], lh := s.lh + [b],
             procs := s.procs[p := InOp(s.procs[p].op, s.procs[p].used + 1, Nothing)]);
  }

  lemma RaceAppend(l: Layout, base: Disk, s: State, i: nat, j: nat, k: nat, data: Block)
    returns (p: nat, s': State)
    requires RaceAt(l, base, s, i, j, k, data) && k < j
    ensures CanAppend(s, p) && s' == DoAppend(s, p) && RaceAt(l, base, s', i, j, k + 1, data)
  {
    p := Next(i, k);
    assert Racer(l, s.procs[p], i, j, k, p, data);
    var n, b := i + k, l.start + l.nlog + i + k;
    s' := HoldMore(l, base, s, n, p, b, data);
    RacersStep(l, s.procs, s'.procs, i, j, k, j, k + 1, p, data);
  }

  lemma RaceOver(l: Layout, base: Disk, s: State, i: nat, m: nat, data: Block)
    requires RaceAt(l, base, s, i, m, m, data)
    ensures Filled(l, base, s, i + m, data)
  {
    forall q: nat | q < 3 ensures Racer(l, s.procs[q], i + m, 0, 0, q, data) {
      assert Racer(l, s.procs[q], i, m, m, q, data);
      ShareTurn(i, m, q);
    }
  }

  /** A freshly made disk large enough for three full operations, and three processes. */
  ghost predicate FreshDisk(l: Layout, s0: State) {
    Init(l, s0) && |s0.procs| >= 3 && HeadBlocks(s0.disk[l.start]) == [] && l.size >= l.start + l.nlog + LOGSIZE
  }

  lemma FillBoot(l: Layout, s0: State) returns (ts: seq<Step>)
    requires FreshDisk(l, s0)
    ensures Legal(l, s0, ts)
    ensures var s := Exec(l, s0, ts);
            && Untouched(l, s0.base, s) && s.phase.Serving? && s.lh == [] && s.outstanding == 0 && !s.committing
            && s.procs == s0.procs
  {
    assert RecoveryWrites(l, s0.disk) == [Write(l.start, PutHead(s0.disk[l.start], []))];
    RunExtend(l, s0, [], RecoverWrite);
    RunExtend(l, s0, [] + [RecoverWrite], RecoverDone);
    ts := [] + [RecoverWrite] + [RecoverDone];
  }

  lemma FillStart(l: Layout, s0: State, data: Block) returns (ts: seq<Step>)
    requires FreshDisk(l, s0)
    ensures Legal(l, s0, ts) && Filled(l, s0.base, Exec(l, s0, ts), 0, data)
  {
    ts := FillBoot(l, s0);
    RunExtend(l, s0, ts, Begin(0));
    ts := ts + [Begin(0)];
    RunExtend(l, s0, ts, Begin(1));
    ts := ts + [Begin(1)];
    RunExtend(l, s0, ts, Begin(2));
    ts := ts + [Begin(2)];
  }

  lemma TestRun(l: Layout, s0: State, ts: seq<Step>, i: nat, j: nat, data: Block) returns (ts': seq<Step>)
    requires FreshDisk(l, s0) && j < 3 && i + j < LOGSIZE && i + 2 <= l.nlog && i + j < s0.nbuf
    requires Legal(l, s0, ts) && RaceAt(l, s0.base, Exec(l, s0, ts), i, j, 0, data)
    ensures Legal(l, s0, ts') && RaceAt(l, s0.base, Exec(l, s0, ts'), i, j + 1, 0, data)
  {
    SameBuffers(l, s0, ts);
    var p, b := RaceTest(l, s0.base, Exec(l, s0, ts), i, j, data);
    RunExtend(l, s0, ts, Test(p, b, data));
    ts' := ts + [Test(p, b, data)];
  }

  lemma AppendRun(l: Layout, s0: State, ts: seq<Step>, i: nat, j: nat, k: nat, data: Block) returns (ts': seq<Step>)
    requires Legal(l, s0, ts) && RaceAt(l, s0.base, Exec(l, s0, ts), i, j, k, data) && k < j
    ensures Legal(l, s0, ts') && RaceAt(l, s0.base, Exec(l, s0, ts'), i, j, k + 1, data)
  {
    var p, s' := RaceAppend(l, s0.base, Exec(l, s0, ts), i, j, k, data);
    RunExtend(l, s0, ts, Append(p));
    ts' := ts + [Append(p)];
  }

  /** `m` processes test on the same count, then all of them append. */
  lemma Race(l: Layout, s0: State, ts: seq<Step>, i: nat, m: nat, data: Block) returns (ts': seq<Step>)
    requires FreshDisk(l, s0) && m <= 3 && i + m <= LOGSIZE && i + 2 <= l.nlog && i + m <= s0.nbuf
    requires Legal(l, s0, ts) && Filled(l, s0.base, Exec(l, s0, ts), i, data)
    ensures Legal(l, s0, ts') && Filled(l, s0.base, Exec(l, s0, ts'), i + m, data)
  {
    ts' := ts;
    var j := 0;
    while j < m
      invariant j <= m && Legal(l, s0, ts') && RaceAt(l, s0.base, Exec(l, s0, ts'), i, j, 0, data)
    {
      ts' := TestRun(l, s0, ts', i, j, data);
      j := j + 1;
    }
    var k := 0;
    while k < m
      invariant k <= m && Legal(l, s0, ts') && RaceAt(l, s0.base, Exec(l, s0, ts'), i, m, k, data)
    {
      ts' := AppendRun(l, s0, ts', i, m, k, data);
      k := k + 1;
    }
    RaceOver(l, s0.base, Exec(l, s0, ts'), i, m, data);
  }

  /** Any number of blocks below the limit of the size check can be logged. */
  lemma {:induction false} FillRun(l: Layout, s0: State, i: nat, data: Block) returns (ts: seq<Step>)
    requires FreshDisk(l, s0) && i <= LOGSIZE && i <= l.nlog - 1 && i <= s0.nbuf
    ensures Legal(l, s0, ts) && Filled(l, s0.base, Exec(l, s0, ts), i, data)
  {
    if i == 0 {
      ts := FillStart(l, s0, data);
    } else {
      ts := FillRun(l, s0, i - 1, data);
      ts := Race(l, s0, ts, i - 1, 1, data);
    }
  }

  /** With a full log, writing again a block that is logged meets the size panic. */
  lemma FullTest(l: Layout, base: Disk, s: State, i: nat, data: Block) returns (p: nat, b: nat)
    requires Filled(l, base, s, i, data) && (i == l.nlog - 1 || i == LOGSIZE) && i <= LOGSIZE && s.nbuf > 0
    requires l.start + l.nlog < l.size
    ensures CanTest(l, s, p, b) && DoTest(l, s, p, b, data).phase == Panicked(TooBig)
    ensures b == l.start + l.nlog && (i > 0 ==> b in s.lh)
    ensures i < LOGSIZE ==> s.procs[p].used < MAXOPBLOCKS
  {
    p := Next(i, 0);
    b := l.start + l.nlog;
    assert Racer(l, s.procs[p], i, 0, 0, p, data);
    RaceBusy(l, base, s, i, 0, data);
    FullLog(l, s, i, b);
  }

  lemma FullLog(l: Layout, s: State, i: nat, b: nat)
    requires |s.lh| == i && (i > 0 ==> s.lh[0] == b) && |Busy(s)| <= i && s.nbuf > 0
    ensures !NoRoomFor(s, b) && (i > 0 ==> b in s.lh)
  {
  }

  /**
   For operations that may still append, the size check is unreachable exactly when the log region has
   at least LOGSIZE + 1 blocks, or two more than there are buffers; the region mkfs lays out is
   one short.
   */
  lemma SizeCheckSafeIff(l: Layout, s0: State)
    requires FreshDisk(l, s0)
    ensures SizeCheckSafe(l, s0) <==> l.nlog >= LOGSIZE + 1 || l.nlog >= s0.nbuf + 2
  {
    if l.nlog >= LOGSIZE + 1 || l.nlog >= s0.nbuf + 2 {
      forall ts, p, b, data | Legal(l, s0, ts)
        ensures BudgetedWriteSafe(l, Exec(l, s0, ts), p, b, data)
      {
        BootCached(l, s0, ts);
        BusyBound(l, Exec(l, s0, ts));
        LargeLogIsSafe(l, Exec(l, s0, ts), p, b, data);
      }
    } else {
      var ts := FillRun(l, s0, l.nlog - 1, Zeroes());
      SameBuffers(l, s0, ts);
      var p, b := FullTest(l, s0.base, Exec(l, s0, ts), l.nlog - 1, Zeroes());
      assert !BudgetedWriteSafe(l, Exec(l, s0, ts), p, b, Zeroes());
    }
  }

  /**
   The check comes before absorption, so no log region is large enough for all writes: three operations that
   have logged ten blocks each panic when one of them logs a block of theirs again.
   */
  lemma AbsorbedWritePanics(l: Layout, s0: State) returns (ts: seq<Step>, p: nat, b: nat)
    requires FreshDisk(l, s0) && l.nlog >= LOGSIZE + 1 && s0.nbuf >= LOGSIZE
    ensures Legal(l, s0, ts) && b in Exec(l, s0, ts).lh
    ensures CanTest(l, Exec(l, s0, ts), p, b)
    ensures DoTest(l, Exec(l, s0, ts), p, b, Zeroes()).phase == Panicked(TooBig)
  {
    ts := FillRun(l, s0, LOGSIZE, Zeroes());
    SameBuffers(l, s0, ts);
    p, b := FullTest(l, s0.base, Exec(l, s0, ts), LOGSIZE, Zeroes());
  }

  // ---------- the test races with the append ----------

  /** In no run from `s0` do the logged blocks and the header exceed the log region. */
  ghost predicate LogFits(l: Layout, s0: State) {
    forall ts :: Legal(l, s0, ts) ==> |Exec(l, s0, ts).lh| + 1 <= l.nlog
  }

  /** In every run from `s0`, recovery finds whole operations. */
  ghost predicate AlwaysWhole(l: Layout, s0: State) {
    forall ts, ks :: Legal(l, s0, ts) ==> Whole(l, Exec(l, s0, ts), ks)
  }

  /**
   The overflowing run: every write is within its budget and passes the test, and the log takes one
   block more than the region has room for.
   */
  lemma RaceRun(l: Layout, s0: State, data: Block) returns (ts: seq<Step>)
    requires FreshDisk(l, s0) && 2 <= l.nlog <= LOGSIZE && l.nlog <= s0.nbuf
    ensures Legal(l, s0, ts) && Filled(l, s0.base, Exec(l, s0, ts), l.nlog, data)
  {
    ts := FillRun(l, s0, l.nlog - 2, data);
    ts := Race(l, s0, ts, l.nlog - 2, 2, data);
  }

  /** The logged blocks fit in all runs if and only if the region is Roomy, or larger than the buffer cache. */
  lemma LogFitsIff(l: Layout, s0: State)
    requires FreshDisk(l, s0)
    ensures LogFits(l, s0) <==> Roomy(l) || l.nlog >= s0.nbuf + 1
  {
    if Roomy(l) || l.nlog >= s0.nbuf + 1 {
      forall ts | Legal(l, s0, ts) ensures |Exec(l, s0, ts).lh| + 1 <= l.nlog {
        BootCached(l, s0, ts);
        BusyBound(l, Exec(l, s0, ts));
      }
    } else {
      var ts := RaceRun(l, s0, Zeroes());
    }
  }

  // ---------- what the overflow does to the disk ----------

  /** The commit of `n` equal blocks has written `k` log slots. */
  ghost predicate Spilling(l: Layout, base: Disk, s: State, n: nat, k: nat, data: Block) {
    && Untouched(l, base, s) && Holding(l, s, n, data) && 0 < n <= LOGSIZE
    && s.phase.Committing? && |s.phase.d0| == l.size && s.phase.done == k <= n
    && forall b :: l.start < b <= l.start + k ==> s.disk[b] == data
  }

  /** The three operations end, and the last one commits or finds no buffer for it. */
  lemma EndRun(l: Layout, s0: State, ts: seq<Step>, n: nat, data: Block) returns (ts': seq<Step>)
    requires FreshDisk(l, s0) && Legal(l, s0, ts) && Filled(l, s0.base, Exec(l, s0, ts), n, data) && 0 < n <= LOGSIZE
    ensures Legal(l, s0, ts')
    ensures n + 1 <= s0.nbuf ==> Spilling(l, s0.base, Exec(l, s0, ts'), n, 0, data)
    ensures n + 1 > s0.nbuf ==> Exec(l, s0, ts').phase == Panicked(NoBuffers) && Exec(l, s0, ts').committing
  {
    SameBuffers(l, s0, ts);
    var s := Exec(l, s0, ts);
    assert Racer(l, s.procs[0], n, 0, 0, 0, data) && Racer(l, s.procs[1], n, 0, 0, 1, data);
    assert Racer(l, s.procs[2], n, 0, 0, 2, data);
    RunExtend(l, s0, ts, End(0));
    ts' := ts + [End(0)];
    RunExtend(l, s0, ts', End(1));
    ts' := ts' + [End(1)];
    RunExtend(l, s0, ts', End(2));
    ts' := ts' + [End(2)];
  }

  lemma SpillNext(l: Layout, base: Disk, s: State, n: nat, k: nat, data: Block)
    requires Spilling(l, base, s, n, k, data) && k < n <= l.nlog
    ensures CanCommit(l, s) && Todo(l, s)[k] == Write(l.start + 1 + k, data)
  {
    var vals := At(s.view, s.lh);
    CommitWriteAt(l, s.phase.d0[l.start], s.lh, vals, 0);
    CommitWriteAt(l, s.phase.d0[l.start], s.lh, vals, k);
    assert vals[k] == s.view[s.lh[k]];
  }

  lemma SpillOne(l: Layout, base: Disk, s: State, n: nat, k: nat, data: Block)
    requires Spilling(l, base, s, n, k, data) && k < n <= l.nlog
    ensures Spilling(l, base, DoCommitWrite(s, Write(l.start + 1 + k, data)), n, k + 1, data)
  {
    var s' := DoCommitWrite(s, Write(l.start + 1 + k, data));
    assert s'.disk[l.start] == s.disk[l.start];
    forall b | l.start < b <= l.start + k + 1 ensures s'.disk[b] == data {
    }
  }

  lemma {:induction false} SpillRun(l: Layout, s0: State, data: Block, k: nat) returns (ts: seq<Step>)
    requires FreshDisk(l, s0) && 2 <= l.nlog <= LOGSIZE && l.nlog < s0.nbuf && k <= l.nlog
    ensures Legal(l, s0, ts) && Spilling(l, s0.base, Exec(l, s0, ts), l.nlog, k, data)
  {
    if k == 0 {
      ts := RaceRun(l, s0, data);
      ts := EndRun(l, s0, ts, l.nlog, data);
    } else {
      ts := SpillRun(l, s0, data, k - 1);
      SpillNext(l, s0.base, Exec(l, s0, ts), l.nlog, k - 1, data);
      SpillOne(l, s0.base, Exec(l, s0, ts), l.nlog, k - 1, data);
      RunExtend(l, s0, ts, CommitWrite);
      ts := ts + [CommitWrite];
    }
  }

  /** The last log slot lies behind the region: a home block is overwritten before the header is. */
  lemma SpillSplits(l: Layout, base: Disk, s: State, data: Block)
    requires Spilling(l, base, s, l.nlog, l.nlog, data) && data != base[l.start + l.nlog]
    ensures !Whole(l, s, [])
  {
    var b := l.start + l.nlog;
    RecoveredIsLogical(l, s.disk);
    assert Recovered(l, CrashyRecovery(l, s.disk, []))[b] == data;
    if s.durable <= |s.hist| {
      assert s.hist[..s.durable] == [];
      assert Replay(base, s.hist[..s.durable], b) == base[b];
    }
  }

  /**
   Exactly the Safe log regions keep operations whole in all runs.  In a smaller one a run in which every
   write is budgeted and tested overwrites a home block while its transaction is not yet committed.
   The region that mkfs makes is as large as the buffer cache, so there that run ends in "no
   buffers" before the first log slot is written.
   */
  lemma AlwaysWholeIff(l: Layout, s0: State)
    requires FreshDisk(l, s0)
    ensures AlwaysWhole(l, s0) <==> l.nlog == 1 || l.nlog >= LOGSIZE + 1 || l.nlog >= s0.nbuf
  {
    if Safe(l, s0.nbuf) {
      forall ts, ks | Legal(l, s0, ts) ensures Whole(l, Exec(l, s0, ts), ks) {
        OperationsNeverSplit(l, s0, ts, ks);
      }
    } else {
      var data := Unlike(s0.base[l.start + l.nlog]);
      var ts := SpillRun(l, s0, data, l.nlog);
      SpillSplits(l, s0.base, Exec(l, s0, ts), data);
    }
  }

  function Unlike(b: Block): (c: Block)
    ensures c != b
  {
    Zeroes()[0 := b[0] + 1]
  }

  // ---------- the buffers of a commit ----------

  /** In no run from `s0` does a read for the log, or a commit, meet "no buffers". */
  ghost predicate BuffersSuffice(l: Layout, s0: State) {
    forall ts :: Legal(l, s0, ts) ==> Exec(l, s0, ts).phase != Panicked(NoBuffers)
  }

  lemma {:induction false} AmpleRun(l: Layout, s: State, ts: seq<Step>)
    requires l.nlog >= 1 && s.nbuf >= 2 && Ample(l, s.nbuf) && Legal(l, s, ts)
    requires Counted(l, s) && Cached(l, s) && s.phase != Panicked(NoBuffers)
    ensures Exec(l, s, ts).phase != Panicked(NoBuffers)
    decreases |ts|
  {
    if ts != [] {
      StepCounted(l, s, ts[0]);
      StepCached(l, s, ts[0]);
      StepFindsBuffers(l, s, ts[0]);
      SameBuffers(l, s, ts[..1]);
      AmpleRun(l, Do(l, s, ts[0]), ts[1..]);
    }
  }

  /** A run whose commit finds every buffer pinned. */
  lemma StarvedRun(l: Layout, s0: State) returns (ts: seq<Step>)
    requires FreshDisk(l, s0) && !Ample(l, s0.nbuf)
    ensures Legal(l, s0, ts) && Exec(l, s0, ts).phase == Panicked(NoBuffers) && Exec(l, s0, ts).committing
  {
    var n, data := s0.nbuf, Zeroes();
    if n <= l.nlog - 1 {
      ts := FillRun(l, s0, n, data);
    } else {
      ts := FillRun(l, s0, l.nlog - 2, data);
      ts := Race(l, s0, ts, l.nlog - 2, n - (l.nlog - 2), data);
    }
    ts := EndRun(l, s0, ts, n, data);
  }

  /**
   Every commit finds its buffers exactly when the cache has a buffer more than the longest log: LOGSIZE
   blocks, or one more than the region has, because three processes may pass the test together.
   The kernel has LOGSIZE buffers, and mkfs makes a region of LOGSIZE blocks.
   */
  lemma BuffersSufficeIff(l: Layout, s0: State)
    requires FreshDisk(l, s0)
    ensures BuffersSuffice(l, s0) <==> l.nlog == 1 || s0.nbuf >= LOGSIZE + 1 || s0.nbuf >= l.nlog + 2
  {
    if Ample(l, s0.nbuf) {
      forall ts | Legal(l, s0, ts) ensures Exec(l, s0, ts).phase != Panicked(NoBuffers) {
        BootCached(l, s0, []);
        AmpleRun(l, s0, ts);
      }
    } else {
      var ts := StarvedRun(l, s0);
    }
  }
}
