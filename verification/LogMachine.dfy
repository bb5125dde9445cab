/**
 The transaction protocol of kernel/log.c as a step system: any number of processes
 interleave `begin_op`, `log_write` and `end_op`, the last `end_op` commits one block write at
 a time, and the machine may crash before any step, also during recovery.  `log_write` is two
 steps, because it tests the size of the log before it takes the lock.

 A logged block stays in the buffer cache until it is installed.  The cache has `nbuf` buffers;
 a read that finds them all taken is the panic "no buffers".

 The state keeps, beside the log's own variables, a history of every logged write.  `durable`
 counts the writes whose batch has reached the disk, i.e. whose header write happened.
 */
module LogMachine {
  import opened Numbers
  import opened Blocks
  import opened LogDisk

  /** A process inside log_write: it has passed the size test but not yet taken the lock. */
  datatype Pending = Nothing | Passed(b: nat, data: Block)

  datatype Proc = Idle | InOp(op: nat, used: nat, pending: Pending) | Committer

  datatype Panic = TooBig | OutsideTrans | AlreadyCommitting | NoBuffers

  datatype Phase =
    | Serving
    | Committing(pid: nat, d0: Disk, done: nat)
    | Recovering(d0: Disk, done: nat)
    | Panicked(why: Panic)

  datatype Event = Event(op: nat, block: nat, data: Block)

  datatype State = State(
    disk: Disk,
    lh: seq<nat>,
    outstanding: int,
    committing: bool,
    view: Disk,
    procs: seq<Proc>,
    phase: Phase,
    base: Disk,
    hist: seq<Event>,
    durable: nat,
    nextOp: nat,
    ended: set<nat>,
    nbuf: nat)

  datatype Step =
    | Begin(p: nat)
    | Test(p: nat, b: nat, data: Block)
    | Append(p: nat)
    | End(p: nat)
    | CommitWrite
    | CommitDone
    | Crash
    | RecoverWrite
    | RecoverDone

  ghost predicate LhOnDisk(s: State) {
    |s.lh| <= LOGSIZE && forall i :: 0 <= i < |s.lh| ==> s.lh[i] < |s.view|
  }

  ghost function Todo(l: Layout, s: State): (ws: seq<Write>)
    requires s.phase.Committing? && l.start < |s.phase.d0| && LhOnDisk(s)
  {
    CommitWrites(l, s.phase.d0[l.start], s.lh, At(s.view, s.lh))
  }

  /** The contents of block `b` after the writes of `es`. */
  ghost function Replay(base: Disk, es: seq<Event>, b: nat): (r: Block)
    requires b < |base|
    decreases |es|
  {
    if es == [] then base[b]
    else if es[|es| - 1].block == b then es[|es| - 1].data
    else Replay(base, es[..|es| - 1], b)
  }

  // ---------- buffers ----------

  /** The blocks that processes inside log_write hold. */
  ghost function Pendings(ps: seq<Proc>): (bs: set<nat>) {
    set p | 0 <= p < |ps| && ps[p].InOp? && ps[p].pending.Passed? :: ps[p].pending.b
  }

  /** The blocks that keep their buffers: logged ones and those held inside log_write. */
  ghost function Busy(s: State): (bs: set<nat>) {
    Elements(s.lh) + Pendings(s.procs)
  }

  /** Reading block `b` finds no buffer for it. */
  ghost predicate NoRoomFor(s: State, b: nat) {
    b !in Busy(s) && |Busy(s)| >= s.nbuf
  }

  /** With all logged blocks pinned, commit finds no buffer for a log slot. */
  ghost predicate Starved(s: State) {
    s.lh != [] && |s.lh| + 1 > s.nbuf
  }

  // ---------- steps ----------

  ghost predicate Working(s: State, p: nat) {
    !s.phase.Recovering? && !s.phase.Panicked? && p < |s.procs| && s.procs[p].InOp?
  }

  ghost predicate Enabled(l: Layout, s: State, t: Step) {
    match t
    case Begin(p) => CanBegin(s, p)
    case Test(p, b, data) => CanTest(l, s, p, b)
    case Append(p) => CanAppend(s, p)
    case End(p) => CanEnd(s, p)
    case CommitWrite => CanCommit(l, s)
    case CommitDone => CommitFinished(l, s)
    case Crash => s.durable <= |s.hist|
    case RecoverWrite => CanRecover(l, s)
    case RecoverDone => RecoveryFinished(l, s)
  }

  ghost predicate CanCommit(l: Layout, s: State) {
    && s.phase.Committing? && l.start < |s.phase.d0| && LhOnDisk(s)
    && s.phase.done < |Todo(l, s)|
    && Todo(l, s)[s.phase.done].blockno < |s.disk|
  }

  ghost predicate CommitFinished(l: Layout, s: State) {
    && s.phase.Committing? && l.start < |s.phase.d0| && LhOnDisk(s)
    && s.phase.done == |Todo(l, s)| && s.phase.pid < |s.procs|
  }

  ghost predicate CanRecover(l: Layout, s: State) {
    && s.phase.Recovering? && WellFormed(l, s.phase.d0)
    && s.phase.done < |RecoveryWrites(l, s.phase.d0)|
    && RecoveryWrites(l, s.phase.d0)[s.phase.done].blockno < |s.disk|
  }

  ghost predicate RecoveryFinished(l: Layout, s: State) {
    && s.phase.Recovering? && WellFormed(l, s.phase.d0)
    && s.phase.done == |RecoveryWrites(l, s.phase.d0)|
  }

  /** begin_op sleeps while committing or while the reservation would not fit. */
  ghost predicate CanBegin(s: State, p: nat) {
    && s.phase.Serving? && p < |s.procs| && s.procs[p].Idle?
    && !s.committing && |s.lh| + (s.outstanding + 1) * MAXOPBLOCKS <= LOGSIZE
  }

  /** An operation logs home blocks only and appends at most MAXOPBLOCKS of them. */
  ghost predicate CanTest(l: Layout, s: State, p: nat, b: nat) {
    && Working(s, p) && s.procs[p].pending.Nothing?
    && l.IsHome(b) && b < |s.view|
    && (b in s.lh || s.procs[p].used < MAXOPBLOCKS)
  }

  ghost predicate CanAppend(s: State, p: nat) {
    Working(s, p) && s.procs[p].pending.Passed? && s.procs[p].pending.b < |s.view|
  }

  ghost predicate CanEnd(s: State, p: nat) {
    Working(s, p) && s.procs[p].pending.Nothing?
  }

  ghost function Do(l: Layout, s: State, t: Step): (s': State)
    requires Enabled(l, s, t)
  {
    match t
    case Begin(p) => DoBegin(s, p)
    case Test(p, b, data) => DoTest(l, s, p, b, data)
    case Append(p) => DoAppend(s, p)
    case End(p) => DoEnd(s, p)
    case CommitWrite => DoCommitWrite(s, Todo(l, s)[s.phase.done])
    case CommitDone => DoCommitDone(s)
    case Crash => DoCrash(s)
    case RecoverWrite => DoRecoverWrite(s, RecoveryWrites(l, s.phase.d0)[s.phase.done])
    case RecoverDone => DoRecoverDone(s)
  }

  ghost function DoBegin(s: State, p: nat): (s': State)
    requires p < |s.procs|
  {
    s.(outstanding := s.outstanding + 1,
       procs := s.procs[p := InOp(s.nextOp, 0, Nothing)],
       nextOp := s.nextOp + 1)
  }

  ghost function DoCrash(s: State): (s': State)
    requires s.durable <= |s.hist|
  {
    s.(lh := [], outstanding := 0, committing := false,
       procs := seq(|s.procs|, _ => Idle),
       phase := Recovering(s.disk, 0),
       hist := s.hist[..s.durable])
  }

  ghost function DoRecoverWrite(s: State, w: Write): (s': State)
    requires s.phase.Recovering? && w.blockno < |s.disk|
  {
    s.(disk := s.disk[w.blockno := w.data], phase := Recovering(s.phase.d0, s.phase.done + 1))
  }

  ghost function DoRecoverDone(s: State): (s': State) {
    s.(phase := Serving, view := s.disk)
  }

  /** Reading the block, and the tests of log_write, made without the lock. */
  ghost function DoTest(l: Layout, s: State, p: nat, b: nat, data: Block): (s': State)
    requires p < |s.procs| && s.procs[p].InOp?
  {
    if NoRoomFor(s, b) then s.(phase := Panicked(NoBuffers))
    else if |s.lh| >= LOGSIZE || |s.lh| >= l.nlog - 1 then s.(phase := Panicked(TooBig))
    else if s.outstanding < 1 then s.(phase := Panicked(OutsideTrans))
    else s.(procs := s.procs[p := InOp(s.procs[p].op, s.procs[p].used, Passed(b, data))])
  }

  /** The rest of log_write, under the lock: absorb the block or append it. */
  ghost function DoAppend(s: State, p: nat): (s': State)
    requires p < |s.procs| && s.procs[p].InOp? && s.procs[p].pending.Passed? && s.procs[p].pending.b < |s.view|
  {
    var op, used, b, data := s.procs[p].op, s.procs[p].used, s.procs[p].pending.b, s.procs[p].pending.data;
    var s1 := s.(view := s.view[b := data], hist := s.hist + [Event(op, b, data)]);
    if b in s.lh then s1.(procs := s.procs[p := InOp(op, used, Nothing)])
    else s1.(lh := s.lh + [b], procs := s.procs[p := InOp(op, used + 1, Nothing)])
  }

  ghost function DoEnd(s: State, p: nat): (s': State)
    requires p < |s.procs| && s.procs[p].InOp?
  {
    var s1 := s.(outstanding := s.outstanding - 1, ended := s.ended + {s.procs[p].op});
    if s.committing then s1.(phase := Panicked(AlreadyCommitting))
    else if s1.outstanding == 0 then
      s1.(committing := true, procs := s.procs[p := Committer],
          phase := if Starved(s) then Panicked(NoBuffers) else Committing(p, s.disk, 0))
    else s1.(procs := s.procs[p := Idle])
  }

  ghost function DoCommitWrite(s: State, w: Write): (s': State)
    requires s.phase.Committing? && w.blockno < |s.disk|
  {
    s.(disk := s.disk[w.blockno := w.data],
       phase := Committing(s.phase.pid, s.phase.d0, s.phase.done + 1),
       durable := if s.phase.done == |s.lh| then |s.hist| else s.durable)
  }

  ghost function DoCommitDone(s: State): (s': State)
    requires s.phase.Committing? && s.phase.pid < |s.procs|
  {
    s.(lh := [], committing := false, phase := Serving, procs := s.procs[s.phase.pid := Idle])
  }

  // ---------- the invariant, in parts ----------

  ghost function Unused(ps: seq<Proc>): (u: int) {
    if ps == [] then 0
    else (if ps[0].InOp? then MAXOPBLOCKS - ps[0].used else 0) + Unused(ps[1..])
  }

  ghost function CountOps(ps: seq<Proc>): (n: nat) {
    if ps == [] then 0 else (if ps[0].InOp? then 1 else 0) + CountOps(ps[1..])
  }

  /** Counters, flags and the block reservation, whatever the size of the log region. */
  ghost predicate Counted(l: Layout, s: State) {
    && (s.phase.Committing? ==> s.committing)
    && (s.committing ==> s.phase.Committing? || s.phase == Panicked(NoBuffers))
    && s.outstanding == CountOps(s.procs)
    && (s.committing || s.phase.Recovering? ==> s.outstanding == 0)
    && (forall p :: 0 <= p < |s.procs| && s.procs[p].InOp? ==> s.procs[p].used <= MAXOPBLOCKS)
    && (forall p :: 0 <= p < |s.procs| && s.procs[p].InOp? ==> PendingOk(l, s.lh, s.procs[p]))
    && |s.lh| + Unused(s.procs) <= LOGSIZE
    && Distinct(s.lh) && (forall i :: 0 <= i < |s.lh| ==> l.IsHome(s.lh[i]))
    && (s.phase.Recovering? ==> s.lh == [])
    && (s.phase.Serving? && s.outstanding == 0 ==> s.lh == [])
    && (s.phase.Committing? ==> s.phase.pid < |s.procs|)
    && (s.phase.Panicked? ==> s.phase.why.TooBig? || s.phase.why.NoBuffers?)
  }

  ghost predicate PendingOk(l: Layout, lh: seq<nat>, x: Proc)
    requires x.InOp?
  {
    x.pending.Passed? ==> l.IsHome(x.pending.b) && (x.pending.b in lh || x.used < MAXOPBLOCKS)
  }

  /** A log region with room for every reservation, or for nothing at all. */
  ghost predicate Roomy(l: Layout) {
    l.nlog >= LOGSIZE + 1 || l.nlog == 1
  }

  /** A Roomy log region, or one so large that a longer log finds no buffers when it is committed. */
  ghost predicate Safe(l: Layout, nbuf: nat) {
    Roomy(l) || l.nlog >= nbuf
  }

  /** What is committed fits the log region. */
  ghost predicate Fits(l: Layout, s: State) {
    && Safe(l, s.nbuf)
    && (s.phase.Committing? ==> |s.lh| + 1 <= l.nlog)
    && (l.nlog == 1 ==> NothingLogged(s))
  }

  /** In a region of one block every size test fails. */
  ghost predicate NothingLogged(s: State) {
    s.lh == [] && forall p :: 0 <= p < |s.procs| && s.procs[p].InOp? ==> s.procs[p].pending.Nothing?
  }

  /** The history and which operations it belongs to. */
  ghost predicate Recorded(l: Layout, s: State) {
    && s.durable <= |s.hist|
    && (forall i :: 0 <= i < |s.hist| ==> l.IsHome(s.hist[i].block) && s.hist[i].op < s.nextOp)
    && (forall i :: s.durable <= i < |s.hist| ==> s.hist[i].block in s.lh)
    && (forall p :: 0 <= p < |s.procs| && s.procs[p].InOp? ==> Fresh(s, s.procs[p].op))
    && (forall i :: 0 <= i < s.durable ==> s.hist[i].op in s.ended)
    && (forall i :: s.durable <= i < |s.hist| ==> s.hist[i].op in s.ended || Active(s, s.hist[i].op))
    && NotSplit(s.hist, s.durable)
    && (s.phase.Recovering? ==> s.durable == |s.hist|)
  }

  /** An operation in progress has no write in a batch that is already durable. */
  ghost predicate Fresh(s: State, op: nat) {
    op < s.nextOp && forall i :: 0 <= i < s.durable && i < |s.hist| ==> s.hist[i].op != op
  }

  ghost predicate Active(s: State, op: nat) {
    exists p :: 0 <= p < |s.procs| && s.procs[p].InOp? && s.procs[p].op == op
  }

  ghost predicate NotSplit(hist: seq<Event>, k: nat) {
    forall i, j :: 0 <= i < k <= j < |hist| ==> hist[i].op != hist[j].op
  }

  /** Every home block of `d` holds what the writes `es` leave there. */
  ghost predicate Contains(l: Layout, base: Disk, es: seq<Event>, d: Disk) {
    |base| == |d| == l.size
    && forall b :: l.IsHome(b) ==> d[b] == Replay(base, es, b)
  }

  /** Every home block of `d` stands for what the writes `es` leave there. */
  ghost predicate StandsFor(l: Layout, base: Disk, es: seq<Event>, d: Disk) {
    |base| == l.size && WellFormed(l, d)
    && forall b :: l.IsHome(b) ==> Logical(l, d, b) == Replay(base, es, b)
  }

  /** Installing `vals` at `bs` over `d0` would put what the writes `es` leave into every home block. */
  ghost predicate WouldContain(l: Layout, base: Disk, es: seq<Event>, d0: Disk, bs: seq<nat>, vals: seq<Block>) {
    |base| == |d0| == l.size && |bs| == |vals|
    && forall b :: l.IsHome(b) ==> NewContents(d0, bs, vals, b) == Replay(base, es, b)
  }

  /** The disk stands for the durable history, in every phase. */
  ghost predicate OnDisk(l: Layout, s: State) {
    && |s.view| == l.size
    && s.durable <= |s.hist|
    && StandsFor(l, s.base, s.hist[..s.durable], s.disk)
  }

  /** What each phase knows beyond that. */
  ghost predicate InPhase(l: Layout, s: State)
    requires OnDisk(l, s) && LhOnDisk(s)
  {
    match s.phase
    case Serving =>
      HeadBlocks(s.disk[l.start]) == [] && Contains(l, s.base, s.hist, s.view)
    case Committing(_, d0, k) =>
      var vals := At(s.view, s.lh);
      && WellFormed(l, d0) && HeadBlocks(d0[l.start]) == []
      && Contains(l, s.base, s.hist, s.view)
      && WouldContain(l, s.base, s.hist, d0, s.lh, vals)
      && k <= |Todo(l, s)|
      && (if s.lh == [] then s.disk == d0 && s.durable == |s.hist|
          else MidCommit(l, d0, s.lh, vals, s.disk, k) && (k > |s.lh| ==> s.durable == |s.hist|))
    case Recovering(d0, k) => WellFormed(l, d0) && MidRecovery(l, d0, s.disk, k)
    case Panicked(_) => true
  }

  ghost predicate Inv(l: Layout, s: State) {
    Counted(l, s) && Fits(l, s) && Recorded(l, s) && OnDisk(l, s) && LhOnDisk(s) && InPhase(l, s)
  }

  ghost predicate Init(l: Layout, s: State) {
    && WellFormed(l, s.disk) && |s.view| == l.size && |s.base| == l.size
    && (forall b :: l.IsHome(b) ==> s.base[b] == Logical(l, s.disk, b))
    && s.lh == [] && s.outstanding == 0 && !s.committing
    && (forall p :: 0 <= p < |s.procs| ==> s.procs[p].Idle?)
    && s.phase == Recovering(s.disk, 0)
    && s.hist == [] && s.durable == 0
    && s.nbuf >= 2  // recovery reads a log slot and the home block beside it
  }

  // ---------- sums over the process table ----------

  lemma {:induction false} SumsUpdate(ps: seq<Proc>, p: nat, x: Proc)
    requires p < |ps|
    ensures Unused(ps[p := x]) == Unused(ps) - Unused([ps[p]]) + Unused([x])
    ensures CountOps(ps[p := x]) == CountOps(ps) - CountOps([ps[p]]) + CountOps([x])
    ensures CountOps([ps[p]]) <= CountOps(ps)
    decreases |ps|
  {
    if p == 0 {
      assert ps[p := x][1..] == ps[1..];
    } else {
      assert ps[p := x][1..] == ps[1..][p - 1 := x];
      SumsUpdate(ps[1..], p - 1, x);
    }
  }

  lemma {:induction false} SumsBound(ps: seq<Proc>)
    requires forall p :: 0 <= p < |ps| && ps[p].InOp? ==> ps[p].used <= MAXOPBLOCKS
    ensures 0 <= Unused(ps) <= MAXOPBLOCKS * CountOps(ps)
    ensures forall p :: 0 <= p < |ps| && ps[p].InOp? ==> CountOps(ps) >= 1
    ensures forall p :: 0 <= p < |ps| && ps[p].InOp? ==> MAXOPBLOCKS - ps[p].used <= Unused(ps)
    ensures (forall p :: 0 <= p < |ps| ==> !ps[p].InOp?) ==> CountOps(ps) == 0
  {
    if ps == [] {
    } else {
      SumsBound(ps[1..]);
      forall p | 0 <= p < |ps| && ps[p].InOp?
        ensures CountOps(ps) >= 1 && MAXOPBLOCKS - ps[p].used <= Unused(ps)
      {
        if p > 0 {
          assert ps[p] == ps[1..][p - 1];
        }
      }
    }
  }

  // ---------- each step keeps the invariant ----------

  lemma NoActive(l: Layout, s: State)
    requires Counted(l, s) && s.outstanding == 0
    ensures forall p :: 0 <= p < |s.procs| ==> !s.procs[p].InOp?
  {
    SumsBound(s.procs);
  }

  lemma BeginKeeps(l: Layout, s: State, p: nat)
    requires Inv(l, s) && CanBegin(s, p)
    ensures Inv(l, DoBegin(s, p))
  {
    BeginCounted(l, s, p);
    BeginRecorded(l, s, p);
  }

  lemma BeginCounted(l: Layout, s: State, p: nat)
    requires Counted(l, s) && CanBegin(s, p)
    ensures Counted(l, DoBegin(s, p))
  {
    SumsUpdate(s.procs, p, InOp(s.nextOp, 0, Nothing));
    SumsBound(s.procs);
  }

  lemma BeginRecorded(l: Layout, s: State, p: nat)
    requires Inv(l, s) && CanBegin(s, p)
    ensures Recorded(l, DoBegin(s, p))
  {
    var s' := DoBegin(s, p);
    forall i | s.durable <= i < |s.hist|
      ensures s.hist[i].op in s.ended || Active(s', s.hist[i].op)
    {
      if s.hist[i].op !in s.ended {
        var q :| 0 <= q < |s.procs| && s.procs[q].InOp? && s.procs[q].op == s.hist[i].op;
        assert s'.procs[q] == s.procs[q];
      }
    }
  }

  lemma ReplaySnoc(base: Disk, es: seq<Event>, e: Event, b: nat)
    requires b < |base|
    ensures Replay(base, es + [e], b) == if e.block == b then e.data else Replay(base, es, b)
  {
    assert (es + [e])[..|es|] == es;
  }

  lemma EndCounted(l: Layout, s: State, p: nat)
    requires Counted(l, s) && !s.phase.Recovering? && !s.phase.Panicked?
    requires p < |s.procs| && s.procs[p].InOp?
    ensures !s.committing && Counted(l, DoEnd(s, p))
  {
    SumsBound(s.procs);
    SumsUpdate(s.procs, p, Idle);
    SumsUpdate(s.procs, p, Committer);
  }

  lemma EndRecorded(l: Layout, s: State, p: nat)
    requires Recorded(l, s) && !s.phase.Recovering? && !s.committing
    requires p < |s.procs| && s.procs[p].InOp?
    ensures Recorded(l, DoEnd(s, p))
  {
    var s' := DoEnd(s, p);
    forall op | Active(s, op) && op != s.procs[p].op
      ensures Active(s', op)
    {
      var q :| 0 <= q < |s.procs| && s.procs[q].InOp? && s.procs[q].op == op;
      assert s'.procs[q] == s.procs[q];
    }
  }

  lemma EndKeeps(l: Layout, s: State, p: nat)
    requires Inv(l, s) && CanEnd(s, p)
    ensures Inv(l, DoEnd(s, p))
  {
    EndCounted(l, s, p);
    EndRecorded(l, s, p);
    if DoEnd(s, p).phase.Committing? {
      CommitBegins(l, s);
    }
  }

  /** When the last operation ends, installing the logged blocks would replay the whole history. */
  lemma CommitBegins(l: Layout, s: State)
    requires Inv(l, s) && s.phase.Serving?
    ensures WouldContain(l, s.base, s.hist, s.disk, s.lh, At(s.view, s.lh))
    ensures s.lh == [] ==> s.durable == |s.hist|
    ensures s.lh != [] && |s.lh| + 1 <= l.nlog ==> MidCommit(l, s.disk, s.lh, At(s.view, s.lh), s.disk, 0)
  {
    var vals := At(s.view, s.lh);
    forall b | l.IsHome(b)
      ensures NewContents(s.disk, s.lh, vals, b) == Replay(s.base, s.hist, b)
    {
      if b !in s.lh {
        assert Logical(l, s.disk, b) == s.disk[b];
        ReplayUntouched(s.base, s.hist, s.durable, |s.hist|, b);
        assert s.hist[..|s.hist|] == s.hist;
      }
    }
  }

  lemma {:induction false} ReplayUntouched(base: Disk, es: seq<Event>, j: nat, k: nat, b: nat)
    requires b < |base| && j <= k <= |es|
    requires forall i :: j <= i < k ==> es[i].block != b
    ensures Replay(base, es[..k], b) == Replay(base, es[..j], b)
    decreases k - j
  {
    if j < k {
      ReplayUntouched(base, es, j, k - 1, b);
      assert es[..k] == es[..k - 1] + [es[k - 1]];
      ReplaySnoc(base, es[..k - 1], es[k - 1], b);
    }
  }

  lemma TestCounted(l: Layout, s: State, p: nat, b: nat, data: Block)
    requires Counted(l, s) && CanTest(l, s, p, b)
    ensures Counted(l, DoTest(l, s, p, b, data))
    ensures s.phase.Serving? && DoTest(l, s, p, b, data).phase in {Serving, Panicked(TooBig), Panicked(NoBuffers)}
  {
    SumsBound(s.procs);
    SumsUpdate(s.procs, p, InOp(s.procs[p].op, s.procs[p].used, Passed(b, data)));
  }

  /** Stepping through log_write moves no process from one operation to another. */
  lemma SameOps(s: State, s': State, p: nat)
    requires p < |s.procs| && s.procs[p].InOp? && |s'.procs| == |s.procs| && s'.procs == s.procs[p := s'.procs[p]]
    requires s'.procs[p].InOp? && s'.procs[p].op == s.procs[p].op
    ensures forall op :: Active(s, op) ==> Active(s', op)
  {
    forall op | Active(s, op)
      ensures Active(s', op)
    {
      var q :| 0 <= q < |s.procs| && s.procs[q].InOp? && s.procs[q].op == op;
      assert s'.procs[q].InOp? && s'.procs[q].op == op;
    }
  }

  lemma TestKeeps(l: Layout, s: State, p: nat, b: nat, data: Block)
    requires Inv(l, s) && CanTest(l, s, p, b)
    ensures Inv(l, DoTest(l, s, p, b, data))
  {
    TestCounted(l, s, p, b, data);
    TestRecorded(l, s, p, b, data);
  }

  lemma TestRecorded(l: Layout, s: State, p: nat, b: nat, data: Block)
    requires Recorded(l, s) && CanTest(l, s, p, b)
    ensures Recorded(l, DoTest(l, s, p, b, data))
  {
    var s' := DoTest(l, s, p, b, data);
    if s'.phase == s.phase {
      SameOps(s, s', p);
    }
  }

  lemma AppendCounted(l: Layout, s: State, p: nat)
    requires Counted(l, s) && CanAppend(s, p)
    ensures s.phase.Serving? && Counted(l, DoAppend(s, p))
  {
    SumsBound(s.procs);
    var x := s.procs[p];
    SumsUpdate(s.procs, p, InOp(x.op, x.used + 1, Nothing));
    SumsUpdate(s.procs, p, InOp(x.op, x.used, Nothing));
  }

  /** With the reservation intact, a block that passed the test still fits when it is appended. */
  lemma AppendFits(l: Layout, s: State, p: nat)
    requires Counted(l, s) && Fits(l, s) && CanAppend(s, p)
    ensures Fits(l, DoAppend(s, p))
  {
    SumsBound(s.procs);
  }

  lemma AppendRecorded(l: Layout, s: State, p: nat)
    requires Counted(l, s) && Recorded(l, s) && CanAppend(s, p)
    ensures Recorded(l, DoAppend(s, p))
  {
    SameOps(s, DoAppend(s, p), p);
    assert Active(s, s.procs[p].op);
  }

  lemma AppendKeeps(l: Layout, s: State, p: nat)
    requires Inv(l, s) && CanAppend(s, p)
    ensures Inv(l, DoAppend(s, p))
  {
    var s', x := DoAppend(s, p), s.procs[p];
    AppendCounted(l, s, p);
    AppendFits(l, s, p);
    AppendRecorded(l, s, p);
    SumsBound(s'.procs);
    assert s'.hist[..s.durable] == s.hist[..s.durable];
    LogWriteContains(l, s.base, s.hist, s.view, Event(x.op, x.pending.b, x.pending.data));
  }

  lemma LogWriteContains(l: Layout, base: Disk, es: seq<Event>, d: Disk, e: Event)
    requires Contains(l, base, es, d) && e.block < |d|
    ensures Contains(l, base, es + [e], d[e.block := e.data])
  {
    forall c | l.IsHome(c)
      ensures d[e.block := e.data][c] == Replay(base, es + [e], c)
    {
      ReplaySnoc(base, es, e, c);
    }
  }

  lemma CommitWriteRecorded(l: Layout, s: State, w: Write)
    requires Counted(l, s) && Recorded(l, s) && s.phase.Committing? && w.blockno < |s.disk|
    ensures Recorded(l, DoCommitWrite(s, w)) && Counted(l, DoCommitWrite(s, w))
  {
    NoActive(l, s);
  }

  lemma CommitWriteDisk(l: Layout, s: State, d0: Disk, k: nat, w: Write)
    requires OnDisk(l, s) && LhOnDisk(s) && InPhase(l, s) && Loggable(l, s.lh) && s.lh != []
    requires s.phase.Committing? && s.phase.d0 == d0 && s.phase.done == k
             && IsCommitWrite(l, d0[l.start], s.lh, At(s.view, s.lh), k, w)
    ensures w.blockno < |s.disk| && OnDisk(l, DoCommitWrite(s, w))
    ensures MidCommit(l, d0, s.lh, At(s.view, s.lh), s.disk[w.blockno := w.data], k + 1)
  {
    var vals := At(s.view, s.lh);
    StageAdvances(l, d0, s.lh, vals, s.disk, k, w);
    CommitStands(l, s, d0, k, vals, s.disk[w.blockno := w.data]);
  }

  /** The disk `e` after the next write of commit stands for the history that is durable then. */
  lemma CommitStands(l: Layout, s: State, d0: Disk, k: nat, vals: seq<Block>, e: Disk)
    requires OnDisk(l, s) && WellFormed(l, d0) && HeadBlocks(d0[l.start]) == [] && |s.lh| == |vals| <= LOGSIZE
    requires WouldContain(l, s.base, s.hist, d0, s.lh, vals)
    requires MidCommit(l, d0, s.lh, vals, s.disk, k) && MidCommit(l, d0, s.lh, vals, e, k + 1)
    ensures var n := if k == |s.lh| then |s.hist| else s.durable; StandsFor(l, s.base, s.hist[..n], e)
  {
    if k == |s.lh| {
      assert s.hist[..|s.hist|] == s.hist;
      CommitSwitches(l, s.base, s.hist, d0, s.lh, vals, e, k + 1);
    } else {
      CommitFrame(l, s.base, s.hist[..s.durable], d0, s.lh, vals, s.disk, e, k);
    }
  }

  lemma CommitWriteKeeps(l: Layout, s: State)
    requires Inv(l, s) && CanCommit(l, s)
    ensures Inv(l, DoCommitWrite(s, Todo(l, s)[s.phase.done]))
  {
    var w := NextWrite(l, s);
    CommitWriteDisk(l, s, s.phase.d0, s.phase.done, w);
    CommitWriteRecorded(l, s, w);
    CommitWritePhase(l, s, w);
  }

  lemma NextWrite(l: Layout, s: State) returns (w: Write)
    requires Inv(l, s) && CanCommit(l, s)
    ensures w == Todo(l, s)[s.phase.done] && s.lh != [] && s.phase.done < 2 * |s.lh| + 2
    ensures IsCommitWrite(l, s.phase.d0[l.start], s.lh, At(s.view, s.lh), s.phase.done, w)
  {
    var vals := At(s.view, s.lh);
    w := Todo(l, s)[s.phase.done];
    CommitWriteAt(l, s.phase.d0[l.start], s.lh, vals, 0);
    CommitWriteAt(l, s.phase.d0[l.start], s.lh, vals, s.phase.done);
  }

  lemma CommitWritePhase(l: Layout, s: State, w: Write)
    requires OnDisk(l, s) && LhOnDisk(s) && InPhase(l, s) && s.phase.Committing? && s.lh != [] && w.blockno < |s.disk|
    requires s.phase.done < 2 * |s.lh| + 2 && OnDisk(l, DoCommitWrite(s, w)) && LhOnDisk(DoCommitWrite(s, w))
    requires MidCommit(l, s.phase.d0, s.lh, At(s.view, s.lh), s.disk[w.blockno := w.data], s.phase.done + 1)
    ensures InPhase(l, DoCommitWrite(s, w))
  {
    CommitWriteAt(l, s.phase.d0[l.start], s.lh, At(s.view, s.lh), 0);
  }

  /** From the header write on, the disk stands for the whole history. */
  lemma CommitSwitches(l: Layout, base: Disk, es: seq<Event>, d0: Disk, bs: seq<nat>, vals: seq<Block>, d: Disk, k: nat)
    requires WellFormed(l, d0) && |bs| == |vals| <= LOGSIZE
    requires WouldContain(l, base, es, d0, bs, vals)
    requires MidCommit(l, d0, bs, vals, d, k) && |bs| < k
    ensures StandsFor(l, base, es, d)
  {
  }

  /** Any other write of commit leaves the logical disk alone. */
  lemma CommitFrame(l: Layout, base: Disk, es: seq<Event>, d0: Disk, bs: seq<nat>, vals: seq<Block>, d: Disk, e: Disk,
                    k: nat)
    requires WellFormed(l, d0) && HeadBlocks(d0[l.start]) == [] && |bs| == |vals| <= LOGSIZE
    requires MidCommit(l, d0, bs, vals, d, k) && MidCommit(l, d0, bs, vals, e, k + 1) && k != |bs|
    requires StandsFor(l, base, es, d)
    ensures StandsFor(l, base, es, e)
  {
    forall b | l.IsHome(b)
      ensures Logical(l, d, b) == Logical(l, e, b)
    {
    }
  }

  lemma CommitDoneKeeps(l: Layout, s: State)
    requires Inv(l, s) && CommitFinished(l, s)
    ensures Inv(l, DoCommitDone(s))
  {
    CommitDoneDurable(l, s);
    CommitDoneCounted(l, s);
    CommitDoneRecorded(l, s);
  }

  lemma CommitDoneCounted(l: Layout, s: State)
    requires Counted(l, s) && s.phase.Committing?
    ensures Counted(l, DoCommitDone(s))
  {
    NoActive(l, s);
    SumsUpdate(s.procs, s.phase.pid, Idle);
  }

  lemma CommitDoneRecorded(l: Layout, s: State)
    requires Counted(l, s) && Recorded(l, s) && s.phase.Committing? && s.durable == |s.hist|
    ensures Recorded(l, DoCommitDone(s))
  {
    NoActive(l, s);
  }

  /** When all writes of commit are done, the whole history is durable. */
  lemma CommitDoneDurable(l: Layout, s: State)
    requires Inv(l, s) && CommitFinished(l, s)
    ensures s.durable == |s.hist| && HeadBlocks(s.disk[l.start]) == []
  {
    if s.lh != [] {
      CommitWriteAt(l, s.phase.d0[l.start], s.lh, At(s.view, s.lh), 0);
    }
  }

  lemma CrashKeeps(l: Layout, s: State)
    requires Inv(l, s)
    ensures Inv(l, DoCrash(s))
  {
    var s' := DoCrash(s);
    SumsBound(s'.procs);
    assert s'.hist[..s'.durable] == s.hist[..s.durable];
    assert forall p :: 0 <= p < |s'.procs| ==> !s'.procs[p].InOp?;
  }

  lemma RecoverWriteKeeps(l: Layout, s: State)
    requires Inv(l, s) && CanRecover(l, s)
    ensures Inv(l, DoRecoverWrite(s, RecoveryWrites(l, s.phase.d0)[s.phase.done]))
  {
    RecoverWriteDisk(l, s.base, s.hist[..s.durable], s.phase.d0, s.disk, s.phase.done);
    RecoverWriteRest(l, s, RecoveryWrites(l, s.phase.d0)[s.phase.done]);
  }

  lemma RecoverWriteRest(l: Layout, s: State, w: Write)
    requires Inv(l, s) && s.phase.Recovering? && w.blockno < |s.disk|
    requires StandsFor(l, s.base, s.hist[..s.durable], s.disk[w.blockno := w.data])
    requires MidRecovery(l, s.phase.d0, s.disk[w.blockno := w.data], s.phase.done + 1)
    ensures Inv(l, DoRecoverWrite(s, w))
  {
  }

  lemma RecoverWriteDisk(l: Layout, base: Disk, es: seq<Event>, d0: Disk, d: Disk, k: nat)
    requires WellFormed(l, d0) && StandsFor(l, base, es, d) && MidRecovery(l, d0, d, k) && k < |RecoveryWrites(l, d0)|
    ensures var w := RecoveryWrites(l, d0)[k];
            && w.blockno < |d| && StandsFor(l, base, es, d[w.blockno := w.data])
            && MidRecovery(l, d0, d[w.blockno := w.data], k + 1)
  {
    RecoveryStep(l, d0, d, k);
    var w := RecoveryWrites(l, d0)[k];
    RecoveryFrame(l, base, es, d0, d, d[w.blockno := w.data]);
  }

  lemma RecoveryFrame(l: Layout, base: Disk, es: seq<Event>, d0: Disk, d: Disk, e: Disk)
    requires WellFormed(l, d0) && WellFormed(l, e)
    requires StandsFor(l, base, es, d) && SameLogical(l, d0, d) && SameLogical(l, d0, e)
    ensures StandsFor(l, base, es, e)
  {
    forall b | l.IsHome(b)
      ensures Logical(l, d, b) == Logical(l, d0, b) == Logical(l, e, b)
    {
    }
  }

  lemma RecoverDoneKeeps(l: Layout, s: State)
    requires Inv(l, s) && RecoveryFinished(l, s)
    ensures Inv(l, DoRecoverDone(s))
  {
    assert s.hist[..s.durable] == s.hist;
    RecoveredDisk(l, s.base, s.hist, s.phase.d0, s.disk);
    RecoverDoneRest(l, s);
  }

  lemma RecoverDoneRest(l: Layout, s: State)
    requires Inv(l, s) && s.phase.Recovering? && HeadBlocks(s.disk[l.start]) == []
             && Contains(l, s.base, s.hist, s.disk)
    ensures Inv(l, DoRecoverDone(s))
  {
  }

  lemma RecoveredDisk(l: Layout, base: Disk, es: seq<Event>, d0: Disk, d: Disk)
    requires WellFormed(l, d0) && MidRecovery(l, d0, d, |RecoveryWrites(l, d0)|) && StandsFor(l, base, es, d)
    ensures HeadBlocks(d[l.start]) == [] && Contains(l, base, es, d)
  {
    forall b | l.IsHome(b)
      ensures d[b] == Logical(l, d, b)
    {
    }
  }

  lemma StepKeeps(l: Layout, s: State, t: Step)
    requires Inv(l, s) && Enabled(l, s, t)
    ensures Inv(l, Do(l, s, t))
  {
    match t
    case Begin(p) => BeginKeeps(l, s, p);
    case Test(p, b, data) => TestKeeps(l, s, p, b, data);
    case Append(p) => AppendKeeps(l, s, p);
    case End(p) => EndKeeps(l, s, p);
    case CommitWrite => CommitWriteKeeps(l, s);
    case CommitDone => CommitDoneKeeps(l, s);
    case Crash => CrashKeeps(l, s);
    case RecoverWrite => RecoverWriteKeeps(l, s);
    case RecoverDone => RecoverDoneKeeps(l, s);
  }

  lemma InitKeeps(l: Layout, s: State)
    requires Init(l, s)
    ensures Counted(l, s) && (Safe(l, s.nbuf) ==> Inv(l, s))
  {
    SumsBound(s.procs);
    UnusedIdle(s.procs);
  }

  lemma {:induction false} UnusedIdle(ps: seq<Proc>)
    requires forall p :: 0 <= p < |ps| ==> ps[p].Idle?
    ensures Unused(ps) == 0
  {
    if ps != [] {
      UnusedIdle(ps[1..]);
    }
  }

  // ---------- whole runs ----------

  ghost predicate Legal(l: Layout, s: State, ts: seq<Step>)
    decreases |ts|
  {
    ts == [] || (Enabled(l, s, ts[0]) && Legal(l, Do(l, s, ts[0]), ts[1..]))
  }

  ghost function Exec(l: Layout, s: State, ts: seq<Step>): (s': State)
    requires Legal(l, s, ts)
    decreases |ts|
  {
    if ts == [] then s else Exec(l, Do(l, s, ts[0]), ts[1..])
  }

  lemma {:induction false} RunKeeps(l: Layout, s: State, ts: seq<Step>)
    requires Inv(l, s) && Legal(l, s, ts)
    ensures Inv(l, Exec(l, s, ts))
    decreases |ts|
  {
    if ts != [] {
      StepKeeps(l, s, ts[0]);
      RunKeeps(l, Do(l, s, ts[0]), ts[1..]);
    }
  }

  lemma {:induction false} RunExtend(l: Layout, s: State, ts: seq<Step>, t: Step)
    requires Legal(l, s, ts) && Enabled(l, Exec(l, s, ts), t)
    ensures Legal(l, s, ts + [t])
    ensures Exec(l, s, ts + [t]) == Do(l, Exec(l, s, ts), t)
    decreases |ts|
  {
    if ts == [] {
      assert ts + [t] == [t];
      assert Exec(l, Do(l, s, t), [t][1..]) == Do(l, s, t);
    } else {
      RunExtend(l, Do(l, s, ts[0]), ts[1..], t);
      assert (ts + [t])[1..] == ts[1..] + [t];
    }
  }

  /** What a run is to leave behind, also after recoveries that crash at the points `ks`. */
  ghost predicate Whole(l: Layout, s: State, ks: seq<nat>) {
    && WellFormed(l, s.disk) && |s.base| == l.size && s.durable <= |s.hist|
    && (var r := Recovered(l, CrashyRecovery(l, s.disk, ks));
        |r| == l.size
        && forall b :: l.IsHome(b) ==> r[b] == Replay(s.base, s.hist[..s.durable], b))
    && NotSplit(s.hist, s.durable)
    && (forall i :: 0 <= i < s.durable ==> s.hist[i].op in s.ended && !Active(s, s.hist[i].op))
    && (s.phase.Serving? && (s.lh == [] || s.outstanding == 0) ==> s.durable == |s.hist|)
  }

  /**
   Operations are never split.  In a log region with room for the reservations, or at least as large
   as the buffer cache, after every run from boot, however processes interleave and wherever
   crashes fall: a crash now, followed by recoveries that crash at any points `ks`, ends with every
   home block as the durable prefix of the history leaves it, and that prefix holds complete,
   ended operations only.  While nobody is in an operation and nothing is committed, it is the whole history.
   */
  lemma OperationsNeverSplit(l: Layout, s0: State, ts: seq<Step>, ks: seq<nat>)
    requires Safe(l, s0.nbuf) && Init(l, s0) && Legal(l, s0, ts)
    ensures Whole(l, Exec(l, s0, ts), ks)
  {
    InitKeeps(l, s0);
    RunKeeps(l, s0, ts);
    InvWhole(l, Exec(l, s0, ts), ks);
  }

  lemma InvWhole(l: Layout, s: State, ks: seq<nat>)
    requires Inv(l, s)
    ensures Whole(l, s, ks)
  {
    RecoversTo(l, s.base, s.hist[..s.durable], s.disk, ks);
    if s.phase.Serving? && (s.lh == [] || s.outstanding == 0) {
      CommitBegins(l, s);
    }
  }

  lemma RecoversTo(l: Layout, base: Disk, es: seq<Event>, d: Disk, ks: seq<nat>)
    requires StandsFor(l, base, es, d)
    ensures var r := Recovered(l, CrashyRecovery(l, d, ks));
            |r| == l.size && forall b :: l.IsHome(b) ==> r[b] == Replay(base, es, b)
  {
    RecoveredIsLogical(l, CrashyRecovery(l, d, ks));
  }

  // ---------- the reservation, in a log region of any size ----------

  lemma StepCounted(l: Layout, s: State, t: Step)
    requires Counted(l, s) && Enabled(l, s, t)
    ensures Counted(l, Do(l, s, t))
  {
    match t
    case Begin(p) => BeginCounted(l, s, p);
    case Test(p, b, data) => TestCounted(l, s, p, b, data);
    case Append(p) => AppendCounted(l, s, p);
    case End(p) => EndCounted(l, s, p);
    case CommitDone => CommitDoneCounted(l, s);
    case Crash => SumsBound(DoCrash(s).procs);
    case CommitWrite =>
    case RecoverWrite =>
    case RecoverDone =>
  }

  lemma {:induction false} RunCounted(l: Layout, s: State, ts: seq<Step>)
    requires Counted(l, s) && Legal(l, s, ts)
    ensures Counted(l, Exec(l, s, ts))
    decreases |ts|
  {
    if ts != [] {
      StepCounted(l, s, ts[0]);
      RunCounted(l, Do(l, s, ts[0]), ts[1..]);
    }
  }

  /**
   The reservation of begin_op.  In every run and for every size of the log region, the blocks in the
   log plus the unused budget of all operations in progress fit LOGSIZE, logged block numbers
   stay distinct, no commit overlaps an operation, and of the panics only the size check and "no
   buffers" can have been met.
   */
  lemma ReservationHolds(l: Layout, s0: State, ts: seq<Step>)
    requires Init(l, s0) && Legal(l, s0, ts)
    ensures var s := Exec(l, s0, ts);
            && |s.lh| + Unused(s.procs) <= LOGSIZE
            && 0 <= Unused(s.procs)
            && Distinct(s.lh)
            && s.outstanding == CountOps(s.procs)
            && (s.committing ==> s.outstanding == 0)
            && (s.phase.Panicked? ==> s.phase.why in {TooBig, NoBuffers})
  {
    InitKeeps(l, s0);
    RunCounted(l, s0, ts);
    SumsBound(Exec(l, s0, ts).procs);
  }
}
