/**
 The on-disk write-ahead log of kernel/log.c: header format, the exact sequence of block
 writes that `commit` and `recover_from_log` issue, and what a crash between any two of
 them leaves behind.

 A disk is indexed by block number, and one block write is the atomic unit (`iderw`).
 */
module LogDisk {
  import opened Numbers
  import opened Blocks

  const LOGSIZE: nat := 30

  datatype Write = Write(blockno: nat, data: Block)

  /** Where the log lives: the header at `start`, log blocks behind it, `nlog` blocks in all. */
  datatype Layout = Layout(start: nat, nlog: nat, size: nat) {
    ghost predicate Valid() {
      1 <= nlog && start + nlog <= size <= U32
    }

    predicate InLog(b: int) {
      start <= b < start + nlog
    }

    /** A block that file-system code may log: on the disk, outside the log region. */
    predicate IsHome(b: int) {
      0 <= b < size && !InLog(b)
    }
  }

  // ---------- the header block: a count word followed by block numbers ----------

  function HeadCount(h: Block): (n: nat) {
    Words(h)[0]
  }

  function HeadBlocks(h: Block): (bs: seq<nat>) {
    if HeadCount(h) <= LOGSIZE then Words(h)[1..1 + HeadCount(h)] else []
  }

  ghost predicate AreWords(bs: seq<nat>) {
    forall i :: 0 <= i < |bs| ==> bs[i] < U32
  }

  /** The count and the block numbers as the header holds them, 32 bits each. */
  function HeadWords(bs: seq<nat>): (ws: seq<Word>)
    requires |bs| <= LOGSIZE
    ensures |ws| == 1 + |bs|
  {
    [|bs|] + seq(|bs|, i requires 0 <= i < |bs| => bs[i] % U32)
  }

  /** write_head overwrites the count and the first `|bs|` entries of the header buffer. */
  function PutHead(h: Block, bs: seq<nat>): (r: Block)
    requires |bs| <= LOGSIZE
    ensures HeadCount(r) == |bs| && (AreWords(bs) ==> HeadBlocks(r) == bs)
  {
    HeadBack(h, bs);
    PutWords(h, 0, HeadWords(bs))
  }

  lemma HeadBack(h: Block, bs: seq<nat>)
    requires |bs| <= LOGSIZE
    ensures var r := PutWords(h, 0, HeadWords(bs));
            HeadCount(r) == |bs| && (AreWords(bs) ==> HeadBlocks(r) == bs)
  {
    WordsBack(h, HeadWords(bs));
    if AreWords(bs) {
      assert HeadWords(bs)[1..] == bs;
    }
  }

  lemma WordsBack(h: Block, ws: seq<Word>)
    requires 1 <= |ws| <= 1 + LOGSIZE && ws[0] == |ws| - 1
    ensures var r := PutWords(h, 0, ws);
            HeadCount(r) == |ws| - 1 && HeadBlocks(r) == ws[1..]
  {
    WordsPut(h, 0, ws);
  }

  /** Block numbers that fit the log and name distinct home blocks. */
  ghost predicate Loggable(l: Layout, bs: seq<nat>) {
    && |bs| <= LOGSIZE
    && |bs| + 1 <= l.nlog
    && Distinct(bs)
    && forall i :: 0 <= i < |bs| ==> l.IsHome(bs[i])
  }

  ghost predicate WellFormed(l: Layout, d: Disk) {
    && l.Valid()
    && |d| == l.size
    && HeadCount(d[l.start]) <= LOGSIZE
    && Loggable(l, HeadBlocks(d[l.start]))
  }

  // ---------- sequences of block writes ----------

  ghost predicate InRange(d: Disk, ws: seq<Write>) {
    forall i :: 0 <= i < |ws| ==> ws[i].blockno < |d|
  }

  ghost function Apply(d: Disk, ws: seq<Write>): (r: Disk)
    requires InRange(d, ws)
    ensures |r| == |d|
    decreases |ws|
  {
    if ws == [] then d
    else
      var w := ws[|ws| - 1];
      Apply(d, ws[..|ws| - 1])[w.blockno := w.data]
  }

  /** write_log: one write per logged block, into consecutive log slots. */
  function LogWrites(l: Layout, vals: seq<Block>): (ws: seq<Write>) {
    seq(|vals|, i requires 0 <= i < |vals| => Write(l.start + 1 + i, vals[i]))
  }

  /** install_trans: one write per logged block, to its home location. */
  function InstallWrites(bs: seq<nat>, vals: seq<Block>): (ws: seq<Write>)
    requires |bs| == |vals|
  {
    seq(|bs|, i requires 0 <= i < |bs| => Write(bs[i], vals[i]))
  }

  /** All block writes of `commit`, in order, for header block `h` and logged blocks `bs`. */
  function CommitWrites(l: Layout, h: Block, bs: seq<nat>, vals: seq<Block>): (ws: seq<Write>)
    requires |bs| == |vals| <= LOGSIZE
  {
    if bs == [] then []
    else
      LogWrites(l, vals) + [Write(l.start, PutHead(h, bs))] + InstallWrites(bs, vals)
      + [Write(l.start, PutHead(PutHead(h, bs), []))]
  }

  /** The contents of the blocks `bs`. */
  function At(d: Disk, bs: seq<nat>): (vals: seq<Block>)
    requires forall i :: 0 <= i < |bs| ==> bs[i] < |d|
    ensures |vals| == |bs|
  {
    seq(|bs|, i requires 0 <= i < |bs| => d[bs[i]])
  }

  function LogSlots(l: Layout, d: Disk, n: nat): (vals: seq<Block>)
    requires l.start + 1 + n <= |d|
    ensures |vals| == n
  {
    d[l.start + 1..l.start + 1 + n]
  }

  lemma SlotAt(l: Layout, d: Disk, n: nat, i: nat)
    requires l.start + 1 + n <= |d| && i < n
    ensures LogSlots(l, d, n)[i] == d[l.start + 1 + i]
  {
  }

  /** All block writes of `recover_from_log` when started on disk `d`. */
  ghost function RecoveryWrites(l: Layout, d: Disk): (ws: seq<Write>)
    requires WellFormed(l, d)
  {
    var bs := HeadBlocks(d[l.start]);
    InstallWrites(bs, LogSlots(l, d, |bs|)) + [Write(l.start, PutHead(d[l.start], []))]
  }

  lemma RecoveryInRange(l: Layout, d: Disk)
    requires WellFormed(l, d)
    ensures InRange(d, RecoveryWrites(l, d))
  {
  }

  ghost function Recovered(l: Layout, d: Disk): (r: Disk)
    requires WellFormed(l, d)
  {
    RecoveryInRange(l, d);
    Apply(d, RecoveryWrites(l, d))
  }

  // ---------- what the disk stands for ----------

  ghost function IndexOf(bs: seq<nat>, b: nat): (i: nat)
    requires b in bs
    ensures i < |bs| && bs[i] == b
  {
    var i: nat :| i < |bs| && bs[i] == b;
    i
  }

  /** The contents of home block `b` as the header makes them: from the log if listed there. */
  ghost function Logical(l: Layout, d: Disk, b: nat): (r: Block)
    requires WellFormed(l, d) && b < l.size
  {
    var bs := HeadBlocks(d[l.start]);
    if b in bs then d[l.start + 1 + IndexOf(bs, b)] else d[b]
  }

  ghost predicate SameLogical(l: Layout, d: Disk, e: Disk)
    requires WellFormed(l, d) && WellFormed(l, e)
  {
    forall b :: l.IsHome(b) ==> Logical(l, d, b) == Logical(l, e, b)
  }

  lemma {:induction false} ApplySnoc(d: Disk, ws: seq<Write>, w: Write)
    requires InRange(d, ws) && w.blockno < |d|
    ensures InRange(d, ws + [w])
    ensures Apply(d, ws + [w]) == Apply(d, ws)[w.blockno := w.data]
  {
    assert (ws + [w])[..|ws|] == ws;
  }

  lemma {:induction false} ApplyTake(d: Disk, ws: seq<Write>, k: nat)
    requires k < |ws| && InRange(d, ws[..k]) && ws[k].blockno < |d|
    ensures InRange(d, ws[..k + 1])
    ensures Apply(d, ws[..k + 1]) == Apply(d, ws[..k])[ws[k].blockno := ws[k].data]
  {
    assert ws[..k + 1] == ws[..k] + [ws[k]];
    ApplySnoc(d, ws[..k], ws[k]);
  }

  // ---------- each kind of write, seen through Logical ----------

  /** Filling a log slot beyond the header's count changes nothing. */
  lemma LogSlotWrite(l: Layout, d: Disk, i: nat, v: Block)
    requires WellFormed(l, d)
    requires |HeadBlocks(d[l.start])| <= i && i + 1 < l.nlog
    ensures var e := d[l.start + 1 + i := v];
            WellFormed(l, e) && SameLogical(l, d, e)
            && e[l.start] == d[l.start]
  {
  }

  /** Installing the logged value of a listed block changes nothing. */
  lemma InstallWrite(l: Layout, d: Disk, i: nat)
    requires WellFormed(l, d)
    requires i < |HeadBlocks(d[l.start])|
    ensures var b := HeadBlocks(d[l.start])[i];
            var e := d[b := d[l.start + 1 + i]];
            WellFormed(l, e) && SameLogical(l, d, e)
            && e[l.start] == d[l.start]
  {
  }

  /** The first `n` of the blocks `bs` already hold their logged values at home. */
  ghost predicate Installed(l: Layout, d: Disk, bs: seq<nat>, n: nat)
    requires Loggable(l, bs) && l.Valid() && |d| == l.size
  {
    n <= |bs| && forall i :: 0 <= i < n ==> d[bs[i]] == d[l.start + 1 + i]
  }

  ghost predicate InstalledTo(l: Layout, d: Disk, n: nat)
    requires WellFormed(l, d)
  {
    Installed(l, d, HeadBlocks(d[l.start]), n)
  }

  lemma InstalledMore(l: Layout, d: Disk, bs: seq<nat>, k: nat)
    requires Loggable(l, bs) && l.Valid() && |d| == l.size && Installed(l, d, bs, k) && k < |bs|
    ensures Installed(l, d[bs[k] := d[l.start + 1 + k]], bs, k + 1)
  {
  }

  /** Clearing the header after everything is installed changes nothing. */
  lemma ClearWrite(l: Layout, d: Disk)
    requires WellFormed(l, d)
    requires InstalledTo(l, d, |HeadBlocks(d[l.start])|)
    ensures var e := d[l.start := PutHead(d[l.start], [])];
            WellFormed(l, e) && SameLogical(l, d, e) && HeadBlocks(e[l.start]) == []
  {
  }

  /** A header written for loggable blocks is well formed and lists them. */
  lemma HeadWrite(l: Layout, d: Disk, bs: seq<nat>)
    requires WellFormed(l, d) && Loggable(l, bs)
    ensures var e := d[l.start := PutHead(d[l.start], bs)];
            WellFormed(l, e) && HeadBlocks(e[l.start]) == bs
  {
  }

  // ---------- crashes ----------

  /** What is true of the disk after `k` writes of an interrupted recovery of `d0`. */
  ghost predicate MidRecovery(l: Layout, d0: Disk, d: Disk, k: nat)
    requires WellFormed(l, d0)
  {
    var n := |HeadBlocks(d0[l.start])|;
    && k <= n + 1
    && WellFormed(l, d)
    && SameLogical(l, d0, d)
    && (k <= n ==> d[l.start] == d0[l.start] && LogSlots(l, d, n) == LogSlots(l, d0, n)
                   && InstalledTo(l, d, k))
    && (k == n + 1 ==> HeadBlocks(d[l.start]) == [])
  }

  lemma RecoveryStep(l: Layout, d0: Disk, d: Disk, k: nat)
    requires WellFormed(l, d0) && MidRecovery(l, d0, d, k)
    requires k < |RecoveryWrites(l, d0)|
    ensures var w := RecoveryWrites(l, d0)[k];
            w.blockno < |d| && MidRecovery(l, d0, d[w.blockno := w.data], k + 1)
  {
    var bs := HeadBlocks(d0[l.start]);
    if k < |bs| {
      RecoveryInstalls(l, d0, d, bs, k);
    } else {
      ClearWrite(l, d);
    }
  }

  lemma RecoveryInstalls(l: Layout, d0: Disk, d: Disk, bs: seq<nat>, k: nat)
    requires WellFormed(l, d0) && MidRecovery(l, d0, d, k) && bs == HeadBlocks(d0[l.start]) && k < |bs|
    ensures MidRecovery(l, d0, d[bs[k] := d0[l.start + 1 + k]], k + 1)
  {
    SlotAt(l, d, |bs|, k);
    SlotAt(l, d0, |bs|, k);
    InstallWrite(l, d, k);
    InstalledMore(l, d, bs, k);
    var e := d[bs[k] := d0[l.start + 1 + k]];
    assert LogSlots(l, e, |bs|) == LogSlots(l, d, |bs|);
  }

  /** Cutting recovery short after any number of writes leaves the same logical disk. */
  lemma {:induction false} RecoveryPrefix(l: Layout, d0: Disk, k: nat)
    requires WellFormed(l, d0)
    requires k <= |RecoveryWrites(l, d0)|
    ensures InRange(d0, RecoveryWrites(l, d0)[..k])
    ensures MidRecovery(l, d0, Apply(d0, RecoveryWrites(l, d0)[..k]), k)
  {
    if k == 0 {
    } else {
      var ws := RecoveryWrites(l, d0);
      RecoveryPrefix(l, d0, k - 1);
      RecoveryStep(l, d0, Apply(d0, ws[..k - 1]), k - 1);
      ApplyTake(d0, ws, k - 1);
    }
  }

  /** A completed recovery puts the logical contents at every home block and empties the log. */
  lemma RecoveredIsLogical(l: Layout, d: Disk)
    requires WellFormed(l, d)
    ensures WellFormed(l, Recovered(l, d))
    ensures HeadBlocks(Recovered(l, d)[l.start]) == []
    ensures forall b :: l.IsHome(b) ==> Recovered(l, d)[b] == Logical(l, d, b)
  {
    var ws := RecoveryWrites(l, d);
    RecoveryPrefix(l, d, |ws|);
    assert ws[..|ws|] == ws;
    assert MidRecovery(l, d, Recovered(l, d), |ws|);
    forall b | l.IsHome(b)
      ensures Recovered(l, d)[b] == Logical(l, d, b)
    {
      assert Logical(l, Recovered(l, d), b) == Recovered(l, d)[b];
    }
  }

  /** The disk after recoveries that crash after `ks[0]`, `ks[1]`, ... writes. */
  ghost function CrashyRecovery(l: Layout, d: Disk, ks: seq<nat>): (r: Disk)
    requires WellFormed(l, d)
    ensures WellFormed(l, r) && SameLogical(l, d, r)
    decreases |ks|
  {
    if ks == [] then d
    else
      var ws := RecoveryWrites(l, d);
      var k := if ks[0] <= |ws| then ks[0] else |ws|;
      RecoveryPrefix(l, d, k);
      CrashyRecovery(l, Apply(d, ws[..k]), ks[1..])
  }

  // ---------- commit ----------

  /** The contents of home block `b` once the whole transaction is in place. */
  ghost function NewContents(d0: Disk, bs: seq<nat>, vals: seq<Block>, b: nat): (r: Block)
    requires |bs| == |vals| && b < |d0|
  {
    if b in bs then vals[IndexOf(bs, b)] else d0[b]
  }

  /** After `k` writes of write_log: the home blocks and the header are untouched. */
  ghost predicate Logging(l: Layout, d0: Disk, vals: seq<Block>, d: Disk, k: nat)
    requires WellFormed(l, d0)
  {
    && k <= |vals| && |vals| + 1 <= l.nlog
    && WellFormed(l, d)
    && d[l.start] == d0[l.start]
    && (forall b :: l.IsHome(b) ==> d[b] == d0[b])
    && (forall i :: 0 <= i < k ==> LogSlots(l, d, |vals|)[i] == vals[i])
  }

  /** Every home block logically holds its new contents. */
  ghost predicate Switched(l: Layout, d0: Disk, bs: seq<nat>, vals: seq<Block>, d: Disk)
    requires WellFormed(l, d0) && |bs| == |vals|
  {
    && WellFormed(l, d)
    && (forall b :: l.IsHome(b) ==> Logical(l, d, b) == NewContents(d0, bs, vals, b))
  }

  /** After the header write and `k` writes of install_trans. */
  ghost predicate Installing(l: Layout, d0: Disk, bs: seq<nat>, vals: seq<Block>, d: Disk, k: nat)
    requires WellFormed(l, d0) && |bs| == |vals| <= LOGSIZE
  {
    && Switched(l, d0, bs, vals, d)
    && d[l.start] == PutHead(d0[l.start], bs) && HeadBlocks(d[l.start]) == bs
    && LogSlots(l, d, |vals|) == vals
    && Installed(l, d, bs, k)
  }

  /** What is true of the disk after `k` writes of a commit started on `d0`. */
  ghost predicate MidCommit(l: Layout, d0: Disk, bs: seq<nat>, vals: seq<Block>, d: Disk, k: nat)
    requires WellFormed(l, d0) && |bs| == |vals| <= LOGSIZE
  {
    var n := |bs|;
    if k <= n then Logging(l, d0, vals, d, k)
    else if k <= 2 * n + 1 then Installing(l, d0, bs, vals, d, k - n - 1)
    else Switched(l, d0, bs, vals, d) && HeadBlocks(d[l.start]) == []
  }

  lemma LoggingStep(l: Layout, d0: Disk, vals: seq<Block>, d: Disk, k: nat)
    requires WellFormed(l, d0) && HeadBlocks(d0[l.start]) == []
    requires Logging(l, d0, vals, d, k) && k < |vals|
    ensures Logging(l, d0, vals, d[l.start + 1 + k := vals[k]], k + 1)
  {
    LogSlotWrite(l, d, k, vals[k]);
  }

  lemma SwitchStep(l: Layout, d0: Disk, bs: seq<nat>, vals: seq<Block>, d: Disk)
    requires WellFormed(l, d0) && HeadBlocks(d0[l.start]) == []
    requires |bs| == |vals| && Loggable(l, bs)
    requires Logging(l, d0, vals, d, |vals|)
    ensures Installing(l, d0, bs, vals, d[l.start := PutHead(d0[l.start], bs)], 0)
  {
    HeadWrite(l, d, bs);
    var e := d[l.start := PutHead(d0[l.start], bs)];
    assert LogSlots(l, d, |vals|) == vals;
    assert LogSlots(l, e, |vals|) == vals;
    forall b | l.IsHome(b)
      ensures Logical(l, e, b) == NewContents(d0, bs, vals, b)
    {
      SwitchAt(l, d0, bs, vals, d, e, b);
    }
  }

  lemma SwitchAt(l: Layout, d0: Disk, bs: seq<nat>, vals: seq<Block>, d: Disk, e: Disk, b: nat)
    requires WellFormed(l, e) && |d| == |d0| == l.size && |bs| == |vals| && l.IsHome(b) && d[b] == d0[b]
    requires Loggable(l, bs) && HeadBlocks(e[l.start]) == bs && LogSlots(l, e, |vals|) == vals && e[b] == d[b]
    ensures Logical(l, e, b) == NewContents(d0, bs, vals, b)
  {
    if b in bs {
      SlotAt(l, e, |vals|, IndexOf(bs, b));
    }
  }

  lemma InstallingStep(l: Layout, d0: Disk, bs: seq<nat>, vals: seq<Block>, d: Disk, k: nat)
    requires WellFormed(l, d0)
    requires |bs| == |vals| && Loggable(l, bs)
    requires Installing(l, d0, bs, vals, d, k) && k < |bs|
    ensures Installing(l, d0, bs, vals, d[bs[k] := vals[k]], k + 1)
  {
    InstallWrite(l, d, k);
    InstalledMore(l, d, bs, k);
    var e := d[bs[k] := vals[k]];
    SlotAt(l, d, |vals|, k);
    assert LogSlots(l, e, |vals|) == vals;
  }

  lemma ClearStep(l: Layout, d0: Disk, bs: seq<nat>, vals: seq<Block>, d: Disk)
    requires WellFormed(l, d0) && |bs| == |vals| && Loggable(l, bs) && Installing(l, d0, bs, vals, d, |bs|)
    ensures var e := d[l.start := PutHead(PutHead(d0[l.start], bs), [])];
            Switched(l, d0, bs, vals, e) && HeadBlocks(e[l.start]) == []
  {
    ClearWrite(l, d);
  }

  /** Block write number `k` of commit. */
  ghost predicate IsCommitWrite(l: Layout, h: Block, bs: seq<nat>, vals: seq<Block>, k: nat, w: Write)
    requires |bs| == |vals| <= LOGSIZE
  {
    var n := |bs|;
    && k <= 2 * n + 1
    && (k < n ==> w == Write(l.start + 1 + k, vals[k]))
    && (k == n ==> w == Write(l.start, PutHead(h, bs)))
    && (n < k < 2 * n + 1 ==> w == Write(bs[k - n - 1], vals[k - n - 1]))
    && (k == 2 * n + 1 ==> w == Write(l.start, PutHead(PutHead(h, bs), [])))
  }

  lemma CommitWriteAt(l: Layout, h: Block, bs: seq<nat>, vals: seq<Block>, k: nat)
    requires 0 < |bs| == |vals| <= LOGSIZE
    requires k <= 2 * |bs| + 1
    ensures var ws := CommitWrites(l, h, bs, vals);
            |ws| == 2 * |bs| + 2 && IsCommitWrite(l, h, bs, vals, k, ws[k])
  {
  }

  lemma StageAdvances(l: Layout, d0: Disk, bs: seq<nat>, vals: seq<Block>, d: Disk, k: nat, w: Write)
    requires WellFormed(l, d0) && HeadBlocks(d0[l.start]) == []
    requires 0 < |bs| == |vals| && Loggable(l, bs)
    requires MidCommit(l, d0, bs, vals, d, k) && IsCommitWrite(l, d0[l.start], bs, vals, k, w)
    ensures w.blockno < |d| && MidCommit(l, d0, bs, vals, d[w.blockno := w.data], k + 1)
  {
    var n := |bs|;
    if k < n {
      LoggingStep(l, d0, vals, d, k);
    } else if k == n {
      SwitchStep(l, d0, bs, vals, d);
    } else if k < 2 * n + 1 {
      InstallingStep(l, d0, bs, vals, d, k - n - 1);
    } else {
      ClearStep(l, d0, bs, vals, d);
    }
  }

  /** One more block write of commit takes one commit stage to the next. */
  lemma CommitStep(l: Layout, d0: Disk, bs: seq<nat>, vals: seq<Block>, d: Disk, k: nat)
    requires WellFormed(l, d0) && HeadBlocks(d0[l.start]) == []
    requires 0 < |bs| == |vals| && Loggable(l, bs)
    requires k < |CommitWrites(l, d0[l.start], bs, vals)|
    requires MidCommit(l, d0, bs, vals, d, k)
    ensures var w := CommitWrites(l, d0[l.start], bs, vals)[k];
            w.blockno < |d| && MidCommit(l, d0, bs, vals, d[w.blockno := w.data], k + 1)
  {
    CommitWriteAt(l, d0[l.start], bs, vals, 0);
    CommitWriteAt(l, d0[l.start], bs, vals, k);
    StageAdvances(l, d0, bs, vals, d, k, CommitWrites(l, d0[l.start], bs, vals)[k]);
  }

  /** Every block write `ws[k]` takes the disks of stage `k` to stage `k + 1`. */
  ghost predicate Advances(stage: (Disk, nat) -> bool, w: Write, size: nat, k: nat) {
    forall d: Disk :: |d| == size && stage(d, k) ==> w.blockno < size && stage(d[w.blockno := w.data], k + 1)
  }

  lemma {:induction false} StagesReached(stage: (Disk, nat) -> bool, d0: Disk, ws: seq<Write>, k: nat)
    requires stage(d0, 0) && k <= |ws|
    requires forall j: nat {:trigger Advances(stage, ws[j], |d0|, j)} :: j < |ws| ==> Advances(stage, ws[j], |d0|, j)
    ensures InRange(d0, ws[..k]) && stage(Apply(d0, ws[..k]), k)
  {
    if k > 0 {
      StagesReached(stage, d0, ws, k - 1);
      assert Advances(stage, ws[k - 1], |d0|, k - 1);
      ApplyTake(d0, ws, k - 1);
    }
  }

  ghost function CommitStage(l: Layout, d0: Disk, bs: seq<nat>, vals: seq<Block>): (stage: (Disk, nat) -> bool)
    requires WellFormed(l, d0) && |bs| == |vals| <= LOGSIZE
  {
    (d: Disk, k: nat) => MidCommit(l, d0, bs, vals, d, k)
  }

  lemma CommitAdvances(l: Layout, d0: Disk, bs: seq<nat>, vals: seq<Block>, k: nat)
    requires WellFormed(l, d0) && HeadBlocks(d0[l.start]) == []
    requires 0 < |bs| == |vals| && Loggable(l, bs)
    requires k < |CommitWrites(l, d0[l.start], bs, vals)|
    ensures Advances(CommitStage(l, d0, bs, vals), CommitWrites(l, d0[l.start], bs, vals)[k], |d0|, k)
  {
    var stage, w := CommitStage(l, d0, bs, vals), CommitWrites(l, d0[l.start], bs, vals)[k];
    forall d: Disk | |d| == |d0| && stage(d, k)
      ensures w.blockno < |d0| && stage(d[w.blockno := w.data], k + 1)
    {
      CommitStep(l, d0, bs, vals, d, k);
    }
  }

  /** The disk after the first `k` block writes of commit. */
  lemma CommitPrefix(l: Layout, d0: Disk, bs: seq<nat>, vals: seq<Block>, k: nat)
    requires WellFormed(l, d0) && HeadBlocks(d0[l.start]) == []
    requires 0 < |bs| == |vals| && Loggable(l, bs)
    requires k <= |CommitWrites(l, d0[l.start], bs, vals)|
    ensures var ws := CommitWrites(l, d0[l.start], bs, vals);
            InRange(d0, ws[..k]) && CommitStage(l, d0, bs, vals)(Apply(d0, ws[..k]), k)
  {
    var ws := CommitWrites(l, d0[l.start], bs, vals);
    forall j: nat | j < |ws| ensures Advances(CommitStage(l, d0, bs, vals), ws[j], |d0|, j) {
      CommitAdvances(l, d0, bs, vals, j);
    }
    StagesReached(CommitStage(l, d0, bs, vals), d0, ws, k);
  }

  /**
   Crash atomicity.  Commit `bs` with contents `vals`, crash after any `k` block writes, then
   let recovery crash any number of times at any points; the first recovery that completes
   leaves every home block old, or every home block new: new exactly when the first header
   write (write number |bs|) reached the disk.
   */
  lemma CrashAtomicity(l: Layout, d0: Disk, bs: seq<nat>, vals: seq<Block>, k: nat, ks: seq<nat>)
    requires WellFormed(l, d0) && HeadBlocks(d0[l.start]) == []
    requires 0 < |bs| == |vals| && Loggable(l, bs)
    requires k <= |CommitWrites(l, d0[l.start], bs, vals)|
    ensures
      var ws := CommitWrites(l, d0[l.start], bs, vals);
      && InRange(d0, ws[..k])
      && WellFormed(l, Apply(d0, ws[..k]))
      && var r := Recovered(l, CrashyRecovery(l, Apply(d0, ws[..k]), ks));
         && |r| == l.size
         && HeadBlocks(r[l.start]) == []
         && (k <= |bs| ==> forall b :: l.IsHome(b) ==> r[b] == d0[b])
         && (|bs| < k ==> forall b :: l.IsHome(b) ==> r[b] == NewContents(d0, bs, vals, b))
  {
    var ws := CommitWrites(l, d0[l.start], bs, vals);
    CommitPrefix(l, d0, bs, vals, k);
    var d := Apply(d0, ws[..k]);
    var e := CrashyRecovery(l, d, ks);
    RecoveredIsLogical(l, e);
  }
}
