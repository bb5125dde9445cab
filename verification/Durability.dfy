/**
 The log and the file system together: if the operations of every transaction take a good image to a good
 image, then the disk is a good image after every crash and recovery.
 */
module Durability {
  import opened Numbers
  import opened Blocks
  import opened LogDisk
  import opened LogMachine
  import opened Ownership
  import opened FileContents
  import opened InodeTable

  // ---------- any property of the home blocks ----------

  ghost predicate SameHome(l: Layout, d: Disk, e: Disk) {
    |d| == |e| == l.size && forall b :: l.IsHome(b) ==> d[b] == e[b]
  }

  /** `good` looks at home blocks only. */
  ghost predicate HomeOnly(l: Layout, good: Disk -> bool) {
    forall d: Disk, e: Disk :: SameHome(l, d, e) && good(d) ==> good(e)
  }

  /** The disk that the committed operations of a run have made. */
  ghost function Durable(l: Layout, s: State): (d: Disk)
    requires |s.base| == l.size && s.durable <= |s.hist|
    ensures |d| == l.size
  {
    seq(l.size, b requires 0 <= b < l.size => Replay(s.base, s.hist[..s.durable], b))
  }

  /** When the last operation of a transaction ends, a good image has become a good image. */
  ghost predicate BatchKeeps(l: Layout, good: Disk -> bool, s: State) {
    s.phase.Committing? && s.phase.done == 0 && |s.base| == l.size && s.durable <= |s.hist| && good(Durable(l, s))
    ==> good(s.view)
  }

  ghost predicate BatchesKeep(l: Layout, good: Disk -> bool, s: State, ts: seq<Step>)
    requires Legal(l, s, ts)
    decreases |ts|
  {
    BatchKeeps(l, good, s) && (ts != [] ==> BatchesKeep(l, good, Do(l, s, ts[0]), ts[1..]))
  }

  ghost predicate GoodSoFar(l: Layout, good: Disk -> bool, s: State) {
    && |s.base| == l.size && s.durable <= |s.hist| && good(Durable(l, s))
    && (s.phase.Committing? ==> good(s.view))
  }

  lemma SameDurable(l: Layout, s: State, s': State)
    requires |s.base| == l.size && s'.base == s.base && s.durable <= |s.hist|
    requires s'.durable == s.durable <= |s'.hist| && s'.hist[..s.durable] == s.hist[..s.durable]
    ensures Durable(l, s') == Durable(l, s)
  {
  }

  /** The header write makes the whole history durable, and the cached blocks show what it amounts to. */
  lemma CommittedView(l: Layout, s: State)
    requires |s.base| == |s.view| == l.size && s.durable == |s.hist| && Contains(l, s.base, s.hist, s.view)
    ensures SameHome(l, s.view, Durable(l, s))
  {
    assert s.hist[..s.durable] == s.hist;
  }

  ghost predicate SamePast(s: State, s': State) {
    s'.durable == s.durable <= |s.hist| && s.durable <= |s'.hist| && s'.hist[..s.durable] == s.hist[..s.durable]
  }

  ghost predicate JustDurable(s: State, s': State) {
    s.phase.Committing? && s'.phase.Committing? && s'.durable == |s'.hist| && s'.view == s.view
  }

  ghost predicate GoesOn(s: State, s': State) {
    && s'.base == s.base && s'.durable <= |s'.hist|
    && (SamePast(s, s') || JustDurable(s, s'))
    && (s'.phase.Committing? ==> s'.phase.done == 0 || (s.phase.Committing? && s'.view == s.view))
  }

  lemma AppendGoesOn(l: Layout, s: State, p: nat)
    requires Counted(l, s) && CanAppend(s, p) && s.durable <= |s.hist|
    ensures GoesOn(s, DoAppend(s, p))
  {
    AppendCounted(l, s, p);
    assert DoAppend(s, p).hist[..s.durable] == s.hist[..s.durable];
  }

  lemma TestGoesOn(l: Layout, s: State, p: nat, b: nat, data: Block)
    requires Counted(l, s) && CanTest(l, s, p, b) && s.durable <= |s.hist|
    ensures GoesOn(s, DoTest(l, s, p, b, data))
  {
    TestCounted(l, s, p, b, data);
  }

  lemma CommitGoesOn(s: State, w: Write)
    requires s.phase.Committing? && w.blockno < |s.disk| && s.durable <= |s.hist|
    ensures GoesOn(s, DoCommitWrite(s, w))
  {
  }

  /** Only a write of commit makes history durable, and a commit starts with its first write. */
  lemma StepHistory(l: Layout, s: State, t: Step)
    requires Counted(l, s) && Enabled(l, s, t) && s.durable <= |s.hist|
    ensures GoesOn(s, Do(l, s, t))
  {
    match t
    case Begin(p) =>
    case Test(p, b, data) => TestGoesOn(l, s, p, b, data);
    case Append(p) => AppendGoesOn(l, s, p);
    case End(p) =>
    case CommitWrite => CommitGoesOn(s, Todo(l, s)[s.phase.done]);
    case CommitDone =>
    case Crash => assert DoCrash(s).hist[..s.durable] == s.hist[..s.durable];
    case RecoverWrite =>
    case RecoverDone =>
  }

  lemma StaysGood(l: Layout, good: Disk -> bool, s: State, s': State)
    requires HomeOnly(l, good) && GoodSoFar(l, good, s) && BatchKeeps(l, good, s')
    requires GoesOn(s, s') && |s'.view| == l.size
    requires s'.phase.Committing? ==> Contains(l, s'.base, s'.hist, s'.view)
    ensures GoodSoFar(l, good, s')
  {
    if SamePast(s, s') {
      SameDurable(l, s, s');
    } else {
      CommittedView(l, s');
    }
  }

  lemma StepStaysGood(l: Layout, good: Disk -> bool, s: State, t: Step)
    requires LogMachine.Inv(l, s) && Enabled(l, s, t) && HomeOnly(l, good) && GoodSoFar(l, good, s)
    requires BatchKeeps(l, good, Do(l, s, t))
    ensures GoodSoFar(l, good, Do(l, s, t))
  {
    StepKeeps(l, s, t);
    StepHistory(l, s, t);
    StaysGood(l, good, s, Do(l, s, t));
  }

  lemma {:induction false} RunStaysGood(l: Layout, good: Disk -> bool, s: State, ts: seq<Step>)
    requires LogMachine.Inv(l, s) && Legal(l, s, ts) && HomeOnly(l, good) && GoodSoFar(l, good, s)
             && BatchesKeep(l, good, s, ts)
    ensures GoodSoFar(l, good, Exec(l, s, ts))
    decreases |ts|
  {
    if ts != [] {
      StepStaysGood(l, good, s, ts[0]);
      StepKeeps(l, s, ts[0]);
      RunStaysGood(l, good, Do(l, s, ts[0]), ts[1..]);
    }
  }

  /** What the operations keep, every recovered disk has. */
  lemma RecoveredStaysGood(l: Layout, good: Disk -> bool, s0: State, ts: seq<Step>, ks: seq<nat>)
    requires Safe(l, s0.nbuf) && Init(l, s0) && Legal(l, s0, ts) && HomeOnly(l, good) && good(s0.base)
             && BatchesKeep(l, good, s0, ts)
    ensures WellFormed(l, Exec(l, s0, ts).disk)
    ensures good(Recovered(l, CrashyRecovery(l, Exec(l, s0, ts).disk, ks)))
  {
    InitKeeps(l, s0);
    assert SameHome(l, s0.base, Durable(l, s0));
    RunStaysGood(l, good, s0, ts);
    OperationsNeverSplit(l, s0, ts, ks);
    var s := Exec(l, s0, ts);
    assert SameHome(l, Durable(l, s), Recovered(l, CrashyRecovery(l, s.disk, ks)));
  }

  // ---------- the file system ----------

  /** The log region lies before the inode table. */
  ghost predicate LaidOut(l: Layout, sb: Super) {
    l.size == sb.size && l.start + l.nlog <= sb.inodestart
  }

  ghost predicate SameFrom(lo: nat, d: Disk, e: Disk) {
    |d| == |e| && forall b: nat :: lo <= b < |d| ==> d[b] == e[b]
  }

  lemma SameInodes(sb: Super, d: Disk, e: Disk)
    requires sb.Valid() && SameFrom(sb.inodestart, d, e)
    ensures DiskInodes(sb, d) == DiskInodes(sb, e)
  {
    var x, y := DiskInodes(sb, d), DiskInodes(sb, e);
    forall i: nat | i < sb.ninodes ensures x[i] == y[i] {
    }
  }

  /** Nothing before the inode table matters to the file system. */
  lemma GoodFrom(sb: Super, d: Disk, e: Disk)
    requires GoodImage(sb, d) && SameFrom(sb.inodestart, d, e)
    ensures GoodImage(sb, e)
  {
    var o :| GoodWith(sb, d, o);
    var ino := DiskInodes(sb, d);
    SameInodes(sb, d, e);
    assert IndirectKept(d, e, o);
    AllHoldKept(d, e, o, o, ino);
    BackKept(d, e, o, o, ino, 0);
    forall c | 0 <= c < sb.size ensures InUse(sb, e, c) <==> o[c] != Free {
      BitBlockIsMeta(sb, o, c);
    }
    forall i: nat | i < |ino| ensures FileOk(e, ino[i]) {
      assert Holds(d, o, i, ino[i], 0) && FileOk(d, ino[i]);
      SameFile(d, e, o, i, ino[i]);
    }
    assert GoodWith(sb, e, o);
  }

  ghost function Good(sb: Super): (g: Disk -> bool) {
    d => GoodImage(sb, d)
  }

  lemma GoodIsHomeOnly(l: Layout, sb: Super)
    requires LaidOut(l, sb)
    ensures HomeOnly(l, Good(sb))
  {
    forall d: Disk, e: Disk | SameHome(l, d, e) && Good(sb)(d) ensures Good(sb)(e) {
      assert forall b: nat :: sb.inodestart <= b < |d| ==> l.IsHome(b);
      GoodFrom(sb, d, e);
    }
  }

  // ---------- the calls of a transaction ----------

  /** Event `k` is the last one about block `b` and carries its contents in `d`. */
  ghost predicate LastWrite(es: seq<Event>, d: Disk, b: nat, k: int) {
    0 <= k < |es| && b < |d| && es[k].block == b && es[k].data == d[b] && forall m :: k < m < |es| ==> es[m].block != b
  }

  /** The events log exactly the blocks `lg`, in the end with their contents in `d`. */
  ghost predicate LoggedAs(es: seq<Event>, d: Disk, lg: set<nat>) {
    && (forall k :: 0 <= k < |es| ==> es[k].block in lg)
    && (forall b :: b in lg && b < |d| ==> exists k :: LastWrite(es, d, b, k))
  }

  lemma {:induction false} ReplayLast(base: Disk, es: seq<Event>, d: Disk, b: nat, k: int)
    requires b < |base| && LastWrite(es, d, b, k)
    ensures Replay(base, es, b) == d[b]
    decreases |es|
  {
    if k < |es| - 1 {
      ReplayLast(base, es[..|es| - 1], d, b, k);
    }
  }

  lemma {:induction false} ReplayNone(base: Disk, es: seq<Event>, b: nat)
    requires b < |base| && forall k :: 0 <= k < |es| ==> es[k].block != b
    ensures Replay(base, es, b) == base[b]
    decreases |es|
  {
    if es != [] {
      ReplayNone(base, es[..|es| - 1], b);
    }
  }

  /** Replaying what a call has logged gives the disk the call has made. */
  lemma CallReplay(d: Disk, d': Disk, lg: set<nat>, es: seq<Event>, b: nat)
    requires Journaled(d, d', {}, lg) && LoggedAs(es, d', lg) && b < |d|
    ensures Replay(d, es, b) == d'[b]
  {
    if b in lg {
      var k :| LastWrite(es, d', b, k);
      ReplayLast(d, es, d', b, k);
    } else {
      ReplayNone(d, es, b);
    }
  }

  lemma {:induction false} ReplayFrom(base: Disk, es: seq<Event>, n: nat, d: Disk, b: nat)
    requires n <= |es| && b < |base| == |d| && d[b] == Replay(base, es[..n], b)
    ensures Replay(base, es, b) == Replay(d, es[n..], b)
    decreases |es|
  {
    if n == |es| {
      assert es[..n] == es && es[n..] == [];
    } else {
      var m := |es| - 1;
      assert es[n..][..m - n] == es[..m][n..] && es[..m][..n] == es[..n];
      ReplayFrom(base, es[..m], n, d, b);
    }
  }

  /** One call: the image it made, the blocks it logged, and the writes of its log_write calls. */
  datatype Made = Made(d: Disk, lg: set<nat>, es: seq<Event>)

  /** From image `d`, the calls `cs` were made one after the other. */
  ghost predicate Calls(sb: Super, d: Disk, cs: seq<Made>)
    decreases |cs|
  {
    cs == []
    || (Call(sb, d, cs[0].d, cs[0].lg) && LoggedAs(cs[0].es, cs[0].d, cs[0].lg) && Calls(sb, cs[0].d, cs[1..]))
  }

  ghost function Events(cs: seq<Made>): (es: seq<Event>) {
    if cs == [] then [] else cs[0].es + Events(cs[1..])
  }

  ghost function After(d: Disk, cs: seq<Made>): (r: Disk)
    decreases |cs|
  {
    if cs == [] then d else After(cs[0].d, cs[1..])
  }

  /** Replaying the writes of calls gives the image they made, and it is good. */
  lemma {:induction false} CallsReplay(sb: Super, d: Disk, cs: seq<Made>, b: nat)
    requires Calls(sb, d, cs) && GoodImage(sb, d) && b < |d|
    ensures GoodImage(sb, After(d, cs)) && |After(d, cs)| == |d| && Replay(d, Events(cs), b) == After(d, cs)[b]
    decreases |cs|
  {
    if cs != [] {
      var e, es := cs[0].d, Events(cs);
      CallReplay(d, e, cs[0].lg, cs[0].es, b);
      assert es[..|cs[0].es|] == cs[0].es && es[|cs[0].es|..] == Events(cs[1..]);
      ReplayFrom(d, es, |cs[0].es|, e, b);
      CallsReplay(sb, e, cs[1..], b);
    }
  }

  /** When a transaction is about to be committed, its writes are those of calls made one after the other. */
  ghost predicate MadeByCalls(l: Layout, sb: Super, s: State) {
    s.phase.Committing? && s.phase.done == 0 && |s.base| == l.size && s.durable <= |s.hist|
    ==> exists cs :: Calls(sb, Durable(l, s), cs) && Events(cs) == s.hist[s.durable..]
  }

  ghost predicate ServesCalls(l: Layout, sb: Super, s: State, ts: seq<Step>)
    requires Legal(l, s, ts)
    decreases |ts|
  {
    MadeByCalls(l, sb, s) && (ts != [] ==> ServesCalls(l, sb, Do(l, s, ts[0]), ts[1..]))
  }

  /** A transaction made of calls keeps the image good. */
  lemma CallsKeepBatch(l: Layout, sb: Super, s: State)
    requires LogMachine.Inv(l, s) && LaidOut(l, sb) && MadeByCalls(l, sb, s)
    ensures BatchKeeps(l, Good(sb), s)
  {
    if s.phase.Committing? && s.phase.done == 0 && GoodImage(sb, Durable(l, s)) {
      var d := Durable(l, s);
      var cs :| Calls(sb, d, cs) && Events(cs) == s.hist[s.durable..];
      ViewAfter(l, sb, s, d, cs, After(d, cs));
      GoodIsHomeOnly(l, sb);
      assert Good(sb)(After(d, cs));
    }
  }

  /** The cached blocks show the image that the calls of the transaction have made. */
  lemma ViewAfter(l: Layout, sb: Super, s: State, d: Disk, cs: seq<Made>, e: Disk)
    requires |s.base| == |s.view| == l.size && s.durable <= |s.hist| && Contains(l, s.base, s.hist, s.view)
    requires d == Durable(l, s) && Calls(sb, d, cs) && Events(cs) == s.hist[s.durable..] && GoodImage(sb, d)
    requires e == After(d, cs)
    ensures GoodImage(sb, e) && SameHome(l, e, s.view)
  {
    AfterGood(sb, d, cs);
    forall b | l.IsHome(b) ensures e[b] == s.view[b] {
      CallsReplay(sb, d, cs, b);
      ReplayFrom(s.base, s.hist, s.durable, d, b);
    }
  }

  lemma {:induction false} AfterGood(sb: Super, d: Disk, cs: seq<Made>)
    requires Calls(sb, d, cs) && GoodImage(sb, d)
    ensures GoodImage(sb, After(d, cs)) && |After(d, cs)| == |d|
    decreases |cs|
  {
    if cs != [] {
      AfterGood(sb, cs[0].d, cs[1..]);
    }
  }

  lemma {:induction false} CallsKeepBatches(l: Layout, sb: Super, s: State, ts: seq<Step>)
    requires LogMachine.Inv(l, s) && LaidOut(l, sb) && Legal(l, s, ts) && ServesCalls(l, sb, s, ts)
    ensures BatchesKeep(l, Good(sb), s, ts)
    decreases |ts|
  {
    CallsKeepBatch(l, sb, s);
    if ts != [] {
      StepKeeps(l, s, ts[0]);
      CallsKeepBatches(l, sb, Do(l, s, ts[0]), ts[1..]);
    }
  }

  /**
   The file system survives.  Boot from a good image, run any transactions made of file-system calls,
   crash anywhere, also inside recovery: the first recovery that completes leaves a disk on which
   the free-block map, block ownership, file sizes and the inode table agree.
   */
  lemma FileSystemSurvives(l: Layout, sb: Super, s0: State, ts: seq<Step>, ks: seq<nat>)
    requires Safe(l, s0.nbuf) && LaidOut(l, sb) && Init(l, s0) && Legal(l, s0, ts)
    requires GoodImage(sb, s0.base) && ServesCalls(l, sb, s0, ts)
    ensures WellFormed(l, Exec(l, s0, ts).disk)
    ensures GoodImage(sb, Recovered(l, CrashyRecovery(l, Exec(l, s0, ts).disk, ks)))
  {
    GoodIsHomeOnly(l, sb);
    InitKeeps(l, s0);
    CallsKeepBatches(l, sb, s0, ts);
    RecoveredStaysGood(l, Good(sb), s0, ts, ks);
  }
}
