/**
 What a run of the log leaves behind, told from its steps alone.  Nothing here looks at the log's variables:
 a write is the block and data of the log_write that the process was in, an operation is the number of its
 begin_op, a commit is durable once one block has been written for each block logged since the last
 commit and one more, the header, and a crash takes away what was not durable.
 */
module LogHistory {
  import opened Numbers
  import opened Blocks
  import opened LogDisk
  import opened LogMachine

  /** The number of begin_op steps. */
  ghost function Begins(ts: seq<Step>): (n: nat) {
    if ts == [] then 0 else Begins(ts[..|ts| - 1]) + if ts[|ts| - 1].Begin? then 1 else 0
  }

  /** The number of the operation that process `p` has begun last; `first` is the number of the first one. */
  ghost function OpOf(ts: seq<Step>, p: nat, first: nat): (op: nat) {
    if ts == [] then 0
    else if ts[|ts| - 1] == Begin(p) then first + Begins(ts[..|ts| - 1])
    else OpOf(ts[..|ts| - 1], p, first)
  }

  /** The block and data that process `p` has called log_write with last. */
  ghost function Proposed(ts: seq<Step>, p: nat): (x: Pending) {
    if ts == [] then Nothing
    else if ts[|ts| - 1].Test? && ts[|ts| - 1].p == p then Passed(ts[|ts| - 1].b, ts[|ts| - 1].data)
    else Proposed(ts[..|ts| - 1], p)
  }

  /** The operations that have called end_op. */
  ghost function EndedIn(ts: seq<Step>, first: nat): (ops: set<nat>) {
    if ts == [] then {}
    else EndedIn(ts[..|ts| - 1], first)
         + if ts[|ts| - 1].End? then {OpOf(ts[..|ts| - 1], ts[|ts| - 1].p, first)} else {}
  }

  /**
   The writes that no crash has taken away, how many of them are durable, how many there were when the last
   commit or crash ended, and how many blocks the commit in progress has written.
   */
  datatype Account = Account(writes: seq<Event>, durable: nat, from: nat, put: nat)

  ghost function BlocksOf(es: seq<Event>): (bs: set<nat>) {
    set k | 0 <= k < |es| :: es[k].block
  }

  ghost function Told(ts: seq<Step>, first: nat): (a: Account)
    ensures a.durable <= |a.writes| && a.from <= |a.writes|
  {
    if ts == [] then Account([], 0, 0, 0)
    else
      var before, t := ts[..|ts| - 1], ts[|ts| - 1];
      var a := Told(before, first);
      match t
      case Append(p) =>
        var x := Proposed(before, p);
        if x.Passed? then a.(writes := a.writes + [Event(OpOf(before, p, first), x.b, x.data)]) else a
      case CommitWrite =>
        a.(put := a.put + 1,
           durable := if a.put == |BlocksOf(a.writes[a.from..])| then |a.writes| else a.durable)
      case CommitDone => a.(from := |a.writes|, put := 0)
      case Crash => Account(a.writes[..a.durable], a.durable, a.durable, 0)
      case _ => a
  }

  // ---------- the log's variables agree with the steps ----------

  ghost predicate ToldOps(s0: State, s: State, ts: seq<Step>) {
    && s.nextOp == s0.nextOp + Begins(ts) && s.ended == s0.ended + EndedIn(ts, s0.nextOp) && s.base == s0.base
    && forall p :: 0 <= p < |s.procs| && s.procs[p].InOp? ==> ToldProc(s0, s.procs[p], ts, p)
  }

  ghost predicate ToldProc(s0: State, x: Proc, ts: seq<Step>, p: nat)
    requires x.InOp?
  {
    x.op == OpOf(ts, p, s0.nextOp) && (x.pending.Passed? ==> x.pending == Proposed(ts, p))
  }

  ghost predicate ToldWrites(s: State, a: Account) {
    && s.hist == a.writes && s.durable == a.durable && a.from <= |a.writes|
    && (s.phase.Serving? || s.phase.Recovering? ==> a.put == 0)
    && (s.phase.Committing? ==> a.put == s.phase.done)
    && (!s.phase.Panicked? ==> Elements(s.lh) == BlocksOf(a.writes[a.from..]))
  }

  ghost predicate Tells(s0: State, s: State, ts: seq<Step>) {
    ToldOps(s0, s, ts) && ToldWrites(s, Told(ts, s0.nextOp))
  }

  /** What one more step tells of process `q`. */
  lemma ToldSnoc(ts: seq<Step>, t: Step, q: nat, first: nat)
    ensures Begins(ts + [t]) == Begins(ts) + if t.Begin? then 1 else 0
    ensures OpOf(ts + [t], q, first) == if t == Begin(q) then first + Begins(ts) else OpOf(ts, q, first)
    ensures Proposed(ts + [t], q) == if t.Test? && t.p == q then Passed(t.b, t.data) else Proposed(ts, q)
    ensures EndedIn(ts + [t], first) == EndedIn(ts, first) + if t.End? then {OpOf(ts, t.p, first)} else {}
  {
    assert (ts + [t])[..|ts|] == ts;
  }

  /** What a step does to a process and to the numbers of operations. */
  ghost predicate ProcMoves(s: State, x: Proc, x': Proc, t: Step, q: nat) {
    x'.InOp? ==>
      if t == Begin(q) then x' == InOp(s.nextOp, 0, Nothing)
      else x.InOp? && x'.op == x.op
           && (x'.pending == (if t.Test? && t.p == q then Passed(t.b, t.data) else x.pending) || x'.pending.Nothing?)
  }

  ghost predicate Moves(s: State, s': State, t: Step) {
    && |s'.procs| == |s.procs|
    && s'.base == s.base && s'.nextOp == s.nextOp + (if t.Begin? then 1 else 0)
    && (t.End? ==> t.p < |s.procs| && s.procs[t.p].InOp?)
    && s'.ended == s.ended + (if t.End? then {s.procs[t.p].op} else {})
    && forall q :: 0 <= q < |s.procs| ==> ProcMoves(s, s.procs[q], s'.procs[q], t, q)
  }

  lemma StepMoves(l: Layout, s: State, t: Step)
    requires Enabled(l, s, t)
    ensures Moves(s, Do(l, s, t), t)
  {
    match t
    case Begin(p) => BeginMoves(s, p);
    case Test(p, b, data) => TestMoves(l, s, p, b, data);
    case Append(p) => AppendMoves(s, p);
    case End(p) => EndMoves(s, p);
    case _ => LogMoves(l, s, t);
  }

  lemma BeginMoves(s: State, p: nat)
    requires CanBegin(s, p)
    ensures Moves(s, DoBegin(s, p), Begin(p))
  {
  }

  lemma LogMoves(l: Layout, s: State, t: Step)
    requires Enabled(l, s, t) && !t.Begin? && !t.Test? && !t.Append? && !t.End?
    ensures Moves(s, Do(l, s, t), t)
  {
    match t
    case CommitWrite => assert Do(l, s, t).procs == s.procs;
    case CommitDone =>
    case Crash =>
    case RecoverWrite => assert Do(l, s, t).procs == s.procs;
    case RecoverDone =>
  }

  lemma TestMoves(l: Layout, s: State, p: nat, b: nat, data: Block)
    requires CanTest(l, s, p, b)
    ensures Moves(s, DoTest(l, s, p, b, data), Test(p, b, data))
  {
  }

  lemma AppendMoves(s: State, p: nat)
    requires CanAppend(s, p)
    ensures Moves(s, DoAppend(s, p), Append(p))
  {
  }

  lemma EndMoves(s: State, p: nat)
    requires CanEnd(s, p)
    ensures Moves(s, DoEnd(s, p), End(p))
  {
  }

  lemma ProcTold(s0: State, s: State, x: Proc, x': Proc, ts: seq<Step>, t: Step, q: nat)
    requires ProcMoves(s, x, x', t, q) && s.nextOp == s0.nextOp + Begins(ts)
    requires x.InOp? ==> ToldProc(s0, x, ts, q)
    ensures x'.InOp? ==> ToldProc(s0, x', ts + [t], q)
  {
    ToldSnoc(ts, t, q, s0.nextOp);
  }

  lemma StepOps(l: Layout, s0: State, s: State, ts: seq<Step>, t: Step)
    requires ToldOps(s0, s, ts) && Enabled(l, s, t)
    ensures ToldOps(s0, Do(l, s, t), ts + [t])
  {
    StepMoves(l, s, t);
    MovesTold(s0, s, Do(l, s, t), ts, t);
  }

  lemma MovesTold(s0: State, s: State, s': State, ts: seq<Step>, t: Step)
    requires ToldOps(s0, s, ts) && Moves(s, s', t)
    ensures ToldOps(s0, s', ts + [t])
  {
    forall q | 0 <= q < |s'.procs| && s'.procs[q].InOp? ensures ToldProc(s0, s'.procs[q], ts + [t], q) {
      ProcTold(s0, s, s.procs[q], s'.procs[q], ts, t, q);
    }
    ToldSnoc(ts, t, 0, s0.nextOp);
  }

  lemma BlocksOfSnoc(es: seq<Event>, from: nat, e: Event)
    requires from <= |es|
    ensures BlocksOf((es + [e])[from..]) == BlocksOf(es[from..]) + {e.block}
  {
    var a, b := es[from..], (es + [e])[from..];
    assert b == a + [e];
    assert b[|a|] == e;
    assert forall k :: 0 <= k < |a| ==> b[k] == a[k];
  }

  lemma AppendWrites(s0: State, s: State, ts: seq<Step>, p: nat)
    requires Tells(s0, s, ts) && CanAppend(s, p)
    ensures ToldWrites(DoAppend(s, p), Told(ts + [Append(p)], s0.nextOp))
  {
    assert (ts + [Append(p)])[..|ts|] == ts;
    assert ToldProc(s0, s.procs[p], ts, p);
    var a, x := Told(ts, s0.nextOp), s.procs[p];
    BlocksOfSnoc(a.writes, a.from, Event(x.op, x.pending.b, x.pending.data));
    assert Elements(s.lh + [x.pending.b]) == Elements(s.lh) + {x.pending.b};
  }

  lemma CommitWrites(l: Layout, s: State, a: Account, a': Account, w: Write)
    requires ToldWrites(s, a) && s.phase.Committing? && Distinct(s.lh) && w.blockno < |s.disk|
    requires a' == a.(put := a.put + 1,
                      durable := if a.put == |BlocksOf(a.writes[a.from..])| then |a.writes| else a.durable)
    ensures ToldWrites(DoCommitWrite(s, w), a')
  {
    ElementsSize(s.lh);
  }

  /** Steps that log nothing, commit nothing and lose nothing. */
  lemma QuietWrites(l: Layout, s: State, a: Account, t: Step)
    requires ToldWrites(s, a) && Enabled(l, s, t) && Counted(l, s)
    requires t.Begin? || t.Test? || t.End? || t.RecoverWrite? || t.RecoverDone?
    ensures ToldWrites(Do(l, s, t), a)
  {
    if t.End? {
      EndCounted(l, s, t.p);
    }
  }

  lemma LostWrites(l: Layout, s: State, a: Account, a': Account, t: Step)
    requires ToldWrites(s, a) && Enabled(l, s, t) && (t.Crash? || t.CommitDone?) && a.durable <= |a.writes|
    requires a' == if t.Crash? then Account(a.writes[..a.durable], a.durable, a.durable, 0)
                   else a.(from := |a.writes|, put := 0)
    ensures ToldWrites(Do(l, s, t), a')
  {
    assert a'.writes[a'.from..] == [];
  }

  lemma StepWrites(l: Layout, s0: State, s: State, ts: seq<Step>, t: Step)
    requires Tells(s0, s, ts) && Counted(l, s) && Enabled(l, s, t)
    ensures ToldWrites(Do(l, s, t), Told(ts + [t], s0.nextOp))
  {
    assert (ts + [t])[..|ts|] == ts;
    var a, a' := Told(ts, s0.nextOp), Told(ts + [t], s0.nextOp);
    match t
    case Append(p) => AppendWrites(s0, s, ts, p);
    case CommitWrite => CommitWrites(l, s, a, a', Todo(l, s)[s.phase.done]);
    case CommitDone => LostWrites(l, s, a, a', t);
    case Crash => LostWrites(l, s, a, a', t);
    case _ => QuietWrites(l, s, a, t);
  }

  lemma StepTells(l: Layout, s0: State, s: State, ts: seq<Step>, t: Step)
    requires Tells(s0, s, ts) && Counted(l, s) && Enabled(l, s, t)
    ensures Tells(s0, Do(l, s, t), ts + [t])
  {
    StepOps(l, s0, s, ts, t);
    StepWrites(l, s0, s, ts, t);
  }

  lemma {:induction false} RunSplit(l: Layout, s: State, ts: seq<Step>)
    requires Legal(l, s, ts) && ts != []
    ensures var n := |ts| - 1;
            && Legal(l, s, ts[..n]) && Enabled(l, Exec(l, s, ts[..n]), ts[n])
            && Exec(l, s, ts) == Do(l, Exec(l, s, ts[..n]), ts[n])
    decreases |ts|
  {
    var n := |ts| - 1;
    if n == 0 {
      assert ts[..0] == [] && ts[1..] == [];
    } else {
      RunSplit(l, Do(l, s, ts[0]), ts[1..]);
      assert ts[1..][..n - 1] == ts[..n][1..];
    }
  }

  /** In every run from boot the history, its durable part and the ended operations are those told by the steps. */
  lemma {:induction false} HistoryIsTold(l: Layout, s0: State, ts: seq<Step>)
    requires Init(l, s0) && Legal(l, s0, ts)
    ensures Tells(s0, Exec(l, s0, ts), ts)
    decreases |ts|
  {
    if ts == [] {
      assert BlocksOf([]) == Elements(s0.lh);
    } else {
      var n := |ts| - 1;
      var before, t := ts[..n], ts[n];
      RunSplit(l, s0, ts);
      HistoryIsTold(l, s0, before);
      HistoryCounted(l, s0, before);
      StepTells(l, s0, Exec(l, s0, before), before, t);
      assert before + [t] == ts;
    }
  }

  lemma HistoryCounted(l: Layout, s0: State, ts: seq<Step>)
    requires Init(l, s0) && Legal(l, s0, ts)
    ensures Counted(l, Exec(l, s0, ts))
  {
    InitKeeps(l, s0);
    RunCounted(l, s0, ts);
  }

  // ---------- what is recovered and what is read ----------

  /**
   Recovery gives back the run.  After every run from boot, a crash followed by recoveries that crash at any
   points `ks` ends with each home block as the last durable write told by the steps leaves it.  Those
   writes belong to operations that have ended, none of which has a write that is not durable; and
   after a commit, or while nobody is in an operation, nothing is missing from them.
   */
  lemma RecoversTheRun(l: Layout, s0: State, ts: seq<Step>, ks: seq<nat>)
    requires Safe(l, s0.nbuf) && Init(l, s0) && Legal(l, s0, ts)
    ensures var s, a := Exec(l, s0, ts), Told(ts, s0.nextOp);
            && WellFormed(l, s.disk)
            && Contains(l, s0.base, a.writes[..a.durable], Recovered(l, CrashyRecovery(l, s.disk, ks)))
            && NotSplit(a.writes, a.durable)
            && (forall i :: 0 <= i < a.durable ==> a.writes[i].op in s0.ended + EndedIn(ts, s0.nextOp))
            && (ts != [] && ts[|ts| - 1].CommitDone? ==> a.durable == |a.writes|)
            && (s.phase.Serving? && s.outstanding == 0 ==> a.durable == |a.writes|)
  {
    HistoryIsTold(l, s0, ts);
    OperationsNeverSplit(l, s0, ts, ks);
    if ts != [] && ts[|ts| - 1].CommitDone? {
      RunSplit(l, s0, ts);
    }
  }

  /** Reading back: while the log serves or commits, every home block reads as the last write told by the steps. */
  lemma ReadsTheRun(l: Layout, s0: State, ts: seq<Step>)
    requires Safe(l, s0.nbuf) && Init(l, s0) && Legal(l, s0, ts)
    requires Exec(l, s0, ts).phase.Serving? || Exec(l, s0, ts).phase.Committing?
    ensures Contains(l, s0.base, Told(ts, s0.nextOp).writes, Exec(l, s0, ts).view)
  {
    HistoryIsTold(l, s0, ts);
    InitKeeps(l, s0);
    RunKeeps(l, s0, ts);
  }

  /** A log_write takes effect, also when its block is already in the log. */
  lemma AppendIsRead(l: Layout, s0: State, ts: seq<Step>, p: nat)
    requires Safe(l, s0.nbuf) && Init(l, s0) && Legal(l, s0, ts + [Append(p)])
    ensures var x, s := Proposed(ts, p), Exec(l, s0, ts + [Append(p)]);
            x.Passed? && x.b in s.lh && x.b < |s.view| && s.view[x.b] == x.data
  {
    var n := |ts|;
    var us := ts + [Append(p)];
    RunSplit(l, s0, us);
    assert us[..n] == ts;
    HistoryIsTold(l, s0, ts);
    HistoryIsTold(l, s0, us);
    InitKeeps(l, s0);
    RunKeeps(l, s0, us);
    var x := Exec(l, s0, ts).procs[p];
    assert ToldProc(s0, x, ts, p);
    ReplaySnoc(s0.base, Told(ts, s0.nextOp).writes, Event(x.op, x.pending.b, x.pending.data), x.pending.b);
    RunCounted(l, s0, ts);
    AppendCounted(l, Exec(l, s0, ts), p);
  }
}
