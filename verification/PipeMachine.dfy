/**
 Readers and writers of one pipe, interleaved (kernel/pipe.c), and the descriptors that keep its ends open
 (filedup and fileclose in kernel/file.c).  A step is what one process does with the pipe's lock or the file
 table's lock held, from acquiring it (or waking with it) to releasing it (or sleeping).  Kills may
 fall between any two steps, and between a process's test for being killed and its sleep.
 */
module PipeMachine {
  import opened Numbers
  import opened Pipe

  datatype Pc =
    | Idle
    | Writing(src: seq<int>, i: nat)   // in pipewrite, about to continue with byte i
    | WaitW(src: seq<int>, i: nat)     // asleep on nwrite
    | Reading(n: nat)                  // in piperead, about to test for an empty pipe
    | WaitR(n: nat)                    // asleep on nread
    | Closing(writable: bool)          // dropped the last reference of an end, about to call pipeclose

  /** What the last call of a process has returned: bytes written, bytes read, or -1. */
  datatype Result = None | Wrote(n: nat) | Got(bytes: seq<int>) | Failed

  /** A process with its numbers of descriptors for the two ends. */
  datatype Proc = Proc(pc: Pc, killed: bool, rfds: nat, wfds: nat, ret: Result)

  /**
   `rref` and `wref` are the reference counts of the two open files; `enq` and `deq` record every byte
   ever written to and read from the pipe.
   */
  datatype State = State(pipe: PipeVal, procs: seq<Proc>, rref: nat, wref: nat, panicked: bool,
                         enq: seq<int>, deq: seq<int>)

  /** `late`: the process is killed after it has found that it was not, and before it sleeps. */
  datatype Step =
    | StartWrite(p: nat, src: seq<int>)
    | StartRead(p: nat, n: nat)
    | RunWriter(p: nat, late: bool)
    | RunReader(p: nat, late: bool)
    | Dup(p: nat, q: nat, writable: bool)   // dup if p == q, part of fork otherwise
    | Close(p: nat, writable: bool)
    | RunClose(p: nat)
    | Kill(p: nat)

  predicate IsReader(pc: Pc) {
    pc.Reading? || pc.WaitR?
  }

  predicate IsWriter(pc: Pc) {
    pc.Writing? || pc.WaitW?
  }

  /** Inside a call on the end of the pipe. */
  predicate Inside(pc: Pc, writable: bool) {
    if writable then IsWriter(pc) else IsReader(pc)
  }

  function Fd(x: Proc, writable: bool): (n: nat) {
    if writable then x.wfds else x.rfds
  }

  function WithFd(x: Proc, writable: bool, n: nat): (r: Proc) {
    if writable then x.(wfds := n) else x.(rfds := n)
  }

  function Ref(s: State, writable: bool): (n: nat) {
    if writable then s.wref else s.rref
  }

  function WithRef(s: State, writable: bool, n: nat): (r: State) {
    if writable then s.(wref := n) else s.(rref := n)
  }

  predicate IsOpen(v: PipeVal, writable: bool) {
    if writable then v.writeopen else v.readopen
  }

  function Wake(x: Proc, readers: bool): (r: Proc) {
    if readers && x.pc.WaitR? then x.(pc := Reading(x.pc.n))
    else if !readers && x.pc.WaitW? then x.(pc := Writing(x.pc.src, x.pc.i))
    else x
  }

  /** wakeup(&p->nread) or wakeup(&p->nwrite). */
  function WakeAll(ps: seq<Proc>, readers: bool): (r: seq<Proc>)
    ensures |r| == |ps|
    ensures forall q :: 0 <= q < |ps| ==> r[q] == Wake(ps[q], readers)
  {
    seq(|ps|, q requires 0 <= q < |ps| => Wake(ps[q], readers))
  }

  /** A process reads, writes, duplicates and closes through a descriptor it has. */
  ghost predicate Enabled(s: State, t: Step) {
    |s.pipe.data| == PIPESIZE && !s.panicked &&
    match t
    case StartWrite(p, src) => p < |s.procs| && s.procs[p].pc.Idle? && s.procs[p].wfds > 0
    case StartRead(p, n) => p < |s.procs| && s.procs[p].pc.Idle? && s.procs[p].rfds > 0
    case RunWriter(p, late) => p < |s.procs| && s.procs[p].pc.Writing? && s.procs[p].pc.i <= |s.procs[p].pc.src|
    case RunReader(p, late) => p < |s.procs| && s.procs[p].pc.Reading?
    case Dup(p, q, w) =>
      p < |s.procs| && q < |s.procs| && s.procs[p].pc.Idle? && s.procs[q].pc.Idle? && Fd(s.procs[p], w) > 0
    case Close(p, w) => p < |s.procs| && s.procs[p].pc.Idle? && Fd(s.procs[p], w) > 0
    case RunClose(p) => p < |s.procs| && s.procs[p].pc.Closing?
    case Kill(p) => p < |s.procs|
  }

  ghost function Do(s: State, t: Step): (s': State)
    requires Enabled(s, t)
  {
    match t
    case StartWrite(p, src) => s.(procs := s.procs[p := s.procs[p].(pc := Writing(src, 0))])
    case StartRead(p, n) => s.(procs := s.procs[p := s.procs[p].(pc := Reading(n))])
    case RunWriter(p, late) => DoWrite(s, p, late)
    case RunReader(p, late) => DoRead(s, p, late)
    case Dup(p, q, w) => DoDup(s, q, w)
    case Close(p, w) => DoClose(s, p, w)
    case RunClose(p) => DoShut(s, p, s.procs[p].pc.writable)
    case Kill(p) =>
      s.(procs := s.procs[p := Wake(Wake(s.procs[p], true), false).(killed := true)])
  }

  /** filedup, for a descriptor of process `q`. */
  ghost function DoDup(s: State, q: nat, w: bool): (s': State)
    requires q < |s.procs|
  {
    if Ref(s, w) < 1 then s.(panicked := true)
    else WithRef(s, w, Ref(s, w) + 1).(procs := s.procs[q := WithFd(s.procs[q], w, Fd(s.procs[q], w) + 1)])
  }

  /** fileclose up to the call of pipeclose. */
  ghost function DoClose(s: State, p: nat, w: bool): (s': State)
    requires p < |s.procs| && Fd(s.procs[p], w) > 0
  {
    var x := WithFd(s.procs[p], w, Fd(s.procs[p], w) - 1);
    if Ref(s, w) < 1 then s.(panicked := true)
    else
      WithRef(s, w, Ref(s, w) - 1).(procs := s.procs[p := if Ref(s, w) > 1 then x else x.(pc := Closing(w))])
  }

  /** pipeclose, by the process `p` that dropped the last reference. */
  ghost function DoShut(s: State, p: nat, w: bool): (s': State)
    requires p < |s.procs|
  {
    s.(pipe := Shut(s.pipe, w), procs := WakeAll(s.procs, w)[p := s.procs[p].(pc := Idle)])
  }

  /** pipewrite: fill; finished: wake readers; full: give up if killed or unread, else wake readers and sleep. */
  ghost function DoWrite(s: State, p: nat, late: bool): (s': State)
    requires Enabled(s, RunWriter(p, late))
  {
    var x := s.procs[p];
    var (v, j) := Fill(s.pipe, x.pc.src, x.pc.i);
    var s1 := s.(pipe := v, enq := s.enq + x.pc.src[x.pc.i..j]);
    if j == |x.pc.src| then
      s1.(procs := WakeAll(s.procs, true)[p := x.(pc := Idle, ret := Wrote(j))])
    else if !v.readopen || x.killed then
      s1.(procs := s.procs[p := x.(pc := Idle, ret := Failed)])
    else
      s1.(procs := WakeAll(s.procs, true)[p := x.(pc := WaitW(x.pc.src, j), killed := late)])
  }

  /** piperead: empty and still writable: give up if killed, else sleep; otherwise drain and wake writers. */
  ghost function DoRead(s: State, p: nat, late: bool): (s': State)
    requires Enabled(s, RunReader(p, late))
  {
    var x := s.procs[p];
    if Empty(s.pipe) && s.pipe.writeopen then
      s.(procs := s.procs[p := if x.killed then x.(pc := Idle, ret := Failed)
                               else x.(pc := WaitR(x.pc.n), killed := late)])
    else
      var (v, out) := Drain(s.pipe, x.pc.n);
      s.(pipe := v, deq := s.deq + out, procs := WakeAll(s.procs, false)[p := x.(pc := Idle, ret := Got(out))])
  }

  // ---------- descriptors ----------

  ghost function Fds(ps: seq<Proc>, w: bool): (n: nat) {
    if ps == [] then 0 else Fd(ps[0], w) + Fds(ps[1..], w)
  }

  lemma {:induction false} FdsUpdate(ps: seq<Proc>, p: nat, x: Proc, w: bool)
    requires p < |ps|
    ensures Fds(ps[p := x], w) == Fds(ps, w) - Fd(ps[p], w) + Fd(x, w)
    ensures Fd(ps[p], w) <= Fds(ps, w)
    decreases |ps|
  {
    if p == 0 {
      assert ps[p := x][1..] == ps[1..];
    } else {
      assert ps[p := x][1..] == ps[1..][p - 1 := x];
      FdsUpdate(ps[1..], p - 1, x, w);
    }
  }

  ghost predicate SameFds(ps: seq<Proc>, ps': seq<Proc>) {
    |ps| == |ps'| && forall p :: 0 <= p < |ps| ==> ps'[p].rfds == ps[p].rfds && ps'[p].wfds == ps[p].wfds
  }

  lemma {:induction false} FdsSame(ps: seq<Proc>, ps': seq<Proc>, w: bool)
    requires SameFds(ps, ps')
    ensures Fds(ps', w) == Fds(ps, w)
    decreases |ps|
  {
    if ps != [] {
      FdsSame(ps[1..], ps'[1..], w);
    }
  }

  // ---------- what every run keeps ----------

  ghost predicate ProcOk(x: Proc, v: PipeVal) {
    && (IsWriter(x.pc) ==> x.wfds > 0 && x.pc.i <= |x.pc.src|)
    && (IsReader(x.pc) ==> x.rfds > 0)
    && (x.pc.WaitW? ==> Full(v) && v.readopen)
  }

  /** An end is referenced through descriptors; when the last is gone, one process closes it. */
  ghost predicate EndOk(s: State, w: bool) {
    && Ref(s, w) == Fds(s.procs, w) && (Ref(s, w) > 0 ==> IsOpen(s.pipe, w))
    && (forall p :: 0 <= p < |s.procs| && s.procs[p].pc == Closing(w) ==> IsOpen(s.pipe, w) && Ref(s, w) == 0)
    && (forall p, q :: 0 <= p < q < |s.procs| && s.procs[p].pc == Closing(w) ==> s.procs[q].pc != Closing(w))
    && (IsOpen(s.pipe, w) && Ref(s, w) == 0 ==> SomeoneCloses(s.procs, w))
  }

  ghost predicate SomeoneCloses(ps: seq<Proc>, w: bool) {
    exists p :: 0 <= p < |ps| && ps[p].pc == Closing(w)
  }

  /** A step that leaves the end, its descriptors and who is closing it as they are. */
  lemma EndFrame(s: State, s': State, w: bool)
    requires EndOk(s, w) && |s'.procs| == |s.procs| && Fds(s'.procs, w) == Fds(s.procs, w)
    requires Ref(s', w) == Ref(s, w) && IsOpen(s'.pipe, w) == IsOpen(s.pipe, w)
    requires forall p :: 0 <= p < |s.procs| ==> (s'.procs[p].pc == Closing(w) <==> s.procs[p].pc == Closing(w))
    ensures EndOk(s', w)
  {
    if p :| 0 <= p < |s.procs| && s.procs[p].pc == Closing(w) {
      assert s'.procs[p].pc == Closing(w);
    }
  }

  ghost predicate ProcsOk(s: State) {
    forall p :: 0 <= p < |s.procs| ==> ProcOk(s.procs[p], s.pipe)
  }

  ghost predicate EndsOk(s: State) {
    EndOk(s, true) && EndOk(s, false)
  }

  ghost predicate Inv(s: State) {
    Good(s.pipe, s.enq, s.deq) && !s.panicked && EndsOk(s) && ProcsOk(s)
  }

  /** No descriptor changed hands, and nobody is newly closing an end. */
  ghost predicate SameEnds(s: State, s': State) {
    && SameFds(s.procs, s'.procs) && s'.rref == s.rref && s'.wref == s.wref
    && s'.pipe.readopen == s.pipe.readopen && s'.pipe.writeopen == s.pipe.writeopen
    && forall p :: 0 <= p < |s.procs| && (s'.procs[p].pc.Closing? || s.procs[p].pc.Closing?) ==>
         s.procs[p].pc == s'.procs[p].pc
  }

  lemma EndsSame(s: State, s': State)
    requires EndsOk(s) && SameEnds(s, s')
    ensures EndsOk(s')
  {
    FdsSame(s.procs, s'.procs, true);
    FdsSame(s.procs, s'.procs, false);
    EndFrame(s, s', true);
    EndFrame(s, s', false);
  }

  lemma WriteProcs(s: State, p: nat, late: bool)
    requires Good(s.pipe, s.enq, s.deq) && ProcsOk(s) && Enabled(s, RunWriter(p, late))
    ensures ProcsOk(DoWrite(s, p, late)) && SameEnds(s, DoWrite(s, p, late))
  {
    FillGood(s.pipe, s.enq, s.deq, s.procs[p].pc.src, s.procs[p].pc.i);
  }

  lemma WriteKeeps(s: State, p: nat, late: bool)
    requires Inv(s) && Enabled(s, RunWriter(p, late))
    ensures Inv(DoWrite(s, p, late))
  {
    FillGood(s.pipe, s.enq, s.deq, s.procs[p].pc.src, s.procs[p].pc.i);
    WriteProcs(s, p, late);
    EndsSame(s, DoWrite(s, p, late));
  }

  lemma ReadProcs(s: State, p: nat, late: bool)
    requires Good(s.pipe, s.enq, s.deq) && ProcsOk(s) && Enabled(s, RunReader(p, late))
    ensures ProcsOk(DoRead(s, p, late)) && SameEnds(s, DoRead(s, p, late))
  {
    DrainGood(s.pipe, s.enq, s.deq, s.procs[p].pc.n);
  }

  lemma ReadKeeps(s: State, p: nat, late: bool)
    requires Inv(s) && Enabled(s, RunReader(p, late))
    ensures Inv(DoRead(s, p, late))
  {
    DrainGood(s.pipe, s.enq, s.deq, s.procs[p].pc.n);
    ReadProcs(s, p, late);
    EndsSame(s, DoRead(s, p, late));
  }

  /** One process, outside any call, gains or loses a descriptor. */
  lemma FdMoves(s: State, p: nat, x: Proc, w: bool)
    requires p < |s.procs| && Fd(x, !w) == Fd(s.procs[p], !w)
    ensures Fds(s.procs[p := x], w) == Fds(s.procs, w) - Fd(s.procs[p], w) + Fd(x, w)
    ensures Fds(s.procs[p := x], !w) == Fds(s.procs, !w)
    ensures Fd(s.procs[p], w) <= Fds(s.procs, w)
  {
    FdsUpdate(s.procs, p, x, w);
    FdsUpdate(s.procs, p, x, !w);
  }

  lemma DupKeeps(s: State, p: nat, q: nat, w: bool)
    requires Inv(s) && Enabled(s, Dup(p, q, w))
    ensures Inv(DoDup(s, q, w))
  {
    FdMoves(s, p, s.procs[p], w);
    FdMoves(s, q, WithFd(s.procs[q], w, Fd(s.procs[q], w) + 1), w);
    DupEnd(s, q, w);
    DupOther(s, q, w);
  }

  lemma DupEnd(s: State, q: nat, w: bool)
    requires EndOk(s, w) && q < |s.procs| && Ref(s, w) > 0 && Fds(DoDup(s, q, w).procs, w) == Fds(s.procs, w) + 1
    ensures EndOk(DoDup(s, q, w), w)
  {
  }

  lemma DupOther(s: State, q: nat, w: bool)
    requires EndOk(s, !w) && q < |s.procs| && Ref(s, w) > 0 && Fds(DoDup(s, q, w).procs, !w) == Fds(s.procs, !w)
    ensures EndOk(DoDup(s, q, w), !w)
  {
    EndFrame(s, DoDup(s, q, w), !w);
  }

  lemma CloseKeeps(s: State, p: nat, w: bool)
    requires Inv(s) && Enabled(s, Close(p, w))
    ensures Inv(DoClose(s, p, w))
  {
    FdMoves(s, p, DoClose(s, p, w).procs[p], w);
    CloseEnd(s, p, w);
    CloseOther(s, p, w);
  }

  lemma CloseEnd(s: State, p: nat, w: bool)
    requires EndOk(s, w) && Enabled(s, Close(p, w)) && Fds(DoClose(s, p, w).procs, w) == Fds(s.procs, w) - 1
    ensures !DoClose(s, p, w).panicked && EndOk(DoClose(s, p, w), w)
  {
    assert Ref(s, w) == 1 ==> DoClose(s, p, w).procs[p].pc == Closing(w);
  }

  lemma CloseOther(s: State, p: nat, w: bool)
    requires EndOk(s, !w) && Enabled(s, Close(p, w)) && Fds(DoClose(s, p, w).procs, !w) == Fds(s.procs, !w)
    ensures EndOk(DoClose(s, p, w), !w)
  {
    EndFrame(s, DoClose(s, p, w), !w);
  }

  lemma RunCloseEnd(s: State, p: nat, w: bool)
    requires EndOk(s, w) && p < |s.procs| && s.procs[p].pc == Closing(w)
    ensures EndOk(DoShut(s, p, w), w)
  {
    FdsSame(s.procs, DoShut(s, p, w).procs, w);
  }

  lemma RunCloseOther(s: State, p: nat, w: bool)
    requires EndOk(s, !w) && p < |s.procs| && s.procs[p].pc == Closing(w)
    ensures EndOk(DoShut(s, p, w), !w)
  {
    FdsSame(s.procs, DoShut(s, p, w).procs, !w);
    EndFrame(s, DoShut(s, p, w), !w);
  }

  lemma RunCloseKeeps(s: State, p: nat)
    requires Inv(s) && Enabled(s, RunClose(p))
    ensures Inv(Do(s, RunClose(p)))
  {
    var w := s.procs[p].pc.writable;
    RunCloseEnd(s, p, w);
    RunCloseOther(s, p, w);
    EmptyEnd(s, w);
  }

  /** Without references nobody is inside. */
  lemma EmptyEnd(s: State, w: bool)
    requires Inv(s) && Ref(s, w) == 0
    ensures forall p :: 0 <= p < |s.procs| ==> Fd(s.procs[p], w) == 0 && !Inside(s.procs[p].pc, w)
  {
    forall p | 0 <= p < |s.procs|
      ensures Fd(s.procs[p], w) == 0 && !Inside(s.procs[p].pc, w)
    {
      FdsUpdate(s.procs, p, s.procs[p], w);
      assert ProcOk(s.procs[p], s.pipe);
    }
  }

  lemma StepKeeps(s: State, t: Step)
    requires Inv(s) && Enabled(s, t)
    ensures Inv(Do(s, t))
  {
    match t
    case StartWrite(p, src) => StartKeeps(s, p, Writing(src, 0));
    case StartRead(p, n) => StartKeeps(s, p, Reading(n));
    case RunWriter(p, late) => WriteKeeps(s, p, late);
    case RunReader(p, late) => ReadKeeps(s, p, late);
    case Dup(p, q, w) => DupKeeps(s, p, q, w);
    case Close(p, w) => CloseKeeps(s, p, w);
    case RunClose(p) => RunCloseKeeps(s, p);
    case Kill(p) => KillKeeps(s, p);
  }

  lemma StartKeeps(s: State, p: nat, pc: Pc)
    requires Inv(s) && p < |s.procs| && s.procs[p].pc.Idle?
    requires (pc.Writing? && pc.i == 0 && s.procs[p].wfds > 0) || (pc.Reading? && s.procs[p].rfds > 0)
    ensures Inv(s.(procs := s.procs[p := s.procs[p].(pc := pc)]))
  {
    EndsSame(s, s.(procs := s.procs[p := s.procs[p].(pc := pc)]));
  }

  lemma KillKeeps(s: State, p: nat)
    requires Inv(s) && Enabled(s, Kill(p))
    ensures Inv(Do(s, Kill(p)))
  {
    EndsSame(s, Do(s, Kill(p)));
  }

  ghost predicate Legal(s: State, ts: seq<Step>)
    decreases |ts|
  {
    ts == [] || (Enabled(s, ts[0]) && Legal(Do(s, ts[0]), ts[1..]))
  }

  ghost function Exec(s: State, ts: seq<Step>): (s': State)
    requires Legal(s, ts)
    decreases |ts|
  {
    if ts == [] then s else Exec(Do(s, ts[0]), ts[1..])
  }

  /** The process `c` has just made the pipe and has its two descriptors. */
  ghost predicate InitBy(s: State, c: nat) {
    && Good(s.pipe, [], []) && s.enq == s.deq == [] && !s.panicked
    && s.pipe.readopen && s.pipe.writeopen && s.rref == s.wref == 1 && c < |s.procs|
    && forall p :: 0 <= p < |s.procs| ==>
         s.procs[p].pc.Idle? && s.procs[p].rfds == s.procs[p].wfds == if p == c then 1 else 0
  }

  ghost predicate Init(s: State) {
    exists c: nat :: InitBy(s, c)
  }

  lemma {:induction false} FdsOne(ps: seq<Proc>, c: int, w: bool)
    requires forall p :: 0 <= p < |ps| ==> ps[p].rfds == ps[p].wfds == if p == c then 1 else 0
    ensures Fds(ps, w) == if 0 <= c < |ps| then 1 else 0
    decreases |ps|
  {
    if ps != [] {
      assert forall p :: 0 <= p < |ps| - 1 ==> ps[1..][p] == ps[p + 1];
      FdsOne(ps[1..], c - 1, w);
    }
  }

  lemma InitKeeps(s: State)
    requires Init(s)
    ensures Inv(s)
  {
    var c: nat :| InitBy(s, c);
    FdsOne(s.procs, c, true);
    FdsOne(s.procs, c, false);
  }

  lemma {:induction false} RunKeeps(s: State, ts: seq<Step>)
    requires Inv(s) && Legal(s, ts)
    ensures Inv(Exec(s, ts))
    decreases |ts|
  {
    if ts != [] {
      StepKeeps(s, ts[0]);
      RunKeeps(Do(s, ts[0]), ts[1..]);
    }
  }

  lemma {:induction false} RunExtend(s: State, ts: seq<Step>, t: Step)
    requires Legal(s, ts) && Enabled(Exec(s, ts), t)
    ensures Legal(s, ts + [t]) && Exec(s, ts + [t]) == Do(Exec(s, ts), t)
    decreases |ts|
  {
    if ts == [] {
      assert ts + [t] == [t] && [t][1..] == [];
    } else {
      RunExtend(Do(s, ts[0]), ts[1..], t);
      assert (ts + [t])[1..] == ts[1..] + [t];
    }
  }

  /**
   In every run of any readers and writers, bytes leave the pipe in the order they entered, none
   lost or repeated, at most PIPESIZE are inside, and a writer is asleep only while the pipe is
   full and its read end open.
   */
  lemma PipeIsFifo(s0: State, ts: seq<Step>)
    requires Init(s0) && Legal(s0, ts)
    ensures var s := Exec(s0, ts);
            && |s.pipe.data| == PIPESIZE
            && s.deq + Buffered(s.pipe) == s.enq
            && Occupancy(s.pipe) <= PIPESIZE
            && forall p :: 0 <= p < |s.procs| && s.procs[p].pc.WaitW? ==>
                 Occupancy(s.pipe) == PIPESIZE && s.pipe.readopen
  {
    InitKeeps(s0);
    RunKeeps(s0, ts);
    var s := Exec(s0, ts);
    StreamIntact(s.pipe, s.enq, s.deq);
  }

  // ---------- closing ----------

  /**
   The reference counts do their work.  In every run they count the descriptors and never meet the panics
   of filedup and fileclose; an end is open while a process has a descriptor of it, and for as long
   after that as a process is on the way to pipeclose, and closed from then on; and pipeclose is
   called for an end that is open, that no process has a descriptor of, and that no process is
   reading, writing or asleep in.
   */
  lemma ClosedAlone(s0: State, ts: seq<Step>)
    requires Init(s0) && Legal(s0, ts)
    ensures var s := Exec(s0, ts);
            && !s.panicked && s.rref == Fds(s.procs, false) && s.wref == Fds(s.procs, true)
            && (forall w :: IsOpen(s.pipe, w) <==> Fds(s.procs, w) > 0 || SomeoneCloses(s.procs, w))
            && forall p, q :: 0 <= p < |s.procs| && 0 <= q < |s.procs| && s.procs[p].pc.Closing? ==>
                 var w := s.procs[p].pc.writable;
                 IsOpen(s.pipe, w) && Fd(s.procs[q], w) == 0 && !Inside(s.procs[q].pc, w)
  {
    InitKeeps(s0);
    RunKeeps(s0, ts);
    var s := Exec(s0, ts);
    forall p, q | 0 <= p < |s.procs| && 0 <= q < |s.procs| && s.procs[p].pc.Closing?
      ensures var w := s.procs[p].pc.writable;
              IsOpen(s.pipe, w) && Fd(s.procs[q], w) == 0 && !Inside(s.procs[q].pc, w)
    {
      EmptyEnd(s, s.procs[p].pc.writable);
    }
  }

  lemma ReleasedUnused(s: State, t: Step)
    requires Inv(s) && Released(s.pipe) && Enabled(s, t)
    ensures t.Kill? && Released(Do(s, t).pipe)
    ensures forall p :: 0 <= p < |s.procs| ==> s.procs[p].pc.Idle?
  {
    EmptyEnd(s, true);
    EmptyEnd(s, false);
  }

  lemma {:induction false} ReleasedStays(s: State, ts: seq<Step>, n: nat)
    requires Inv(s) && Released(s.pipe) && Legal(s, ts) && n < |ts|
    ensures ts[n].Kill?
    decreases |ts|
  {
    ReleasedUnused(s, ts[0]);
    StepKeeps(s, ts[0]);
    if n > 0 {
      ReleasedStays(Do(s, ts[0]), ts[1..], n - 1);
    }
  }

  /**
   In every run, once both ends are closed no later step looks at the pipe, takes a descriptor or closes
   an end again: its page is given back once and not used after.
   */
  lemma ReleasedOnce(s0: State, ts: seq<Step>, later: seq<Step>)
    requires Init(s0) && Legal(s0, ts) && Released(Exec(s0, ts).pipe) && Legal(Exec(s0, ts), later)
    ensures forall n :: 0 <= n < |later| ==> later[n].Kill?
  {
    InitKeeps(s0);
    RunKeeps(s0, ts);
    forall n | 0 <= n < |later|
      ensures later[n].Kill?
    {
      ReleasedStays(Exec(s0, ts), later, n);
    }
  }

  // ---------- sleeping readers ----------

  /** The property one would want of readers: asleep only while there is nothing to read. */
  ghost predicate ReadersJustified(s: State) {
    forall p :: 0 <= p < |s.procs| && s.procs[p].pc.WaitR? ==> Empty(s.pipe) && s.pipe.writeopen
  }

  ghost predicate SomeoneWaits(s: State) {
    exists p :: 0 <= p < |s.procs| && s.procs[p].pc.WaitR?
  }

  /**
   The one step that breaks it: a killed writer with more bytes than fit puts some into the pipe
   while a reader sleeps, finds the pipe full and returns without waking anyone.
   */
  ghost predicate KilledWriterFills(s: State, t: Step)
    requires Enabled(s, t)
  {
    && t.RunWriter? && s.procs[t.p].killed
    && !Full(s.pipe)
    && |s.procs[t.p].pc.src| - s.procs[t.p].pc.i > PIPESIZE - Occupancy(s.pipe)
    && SomeoneWaits(s)
  }

  lemma WriterAndReaders(s: State, p: nat, late: bool)
    requires Inv(s) && ReadersJustified(s) && Enabled(s, RunWriter(p, late))
    ensures ReadersJustified(DoWrite(s, p, late)) <==> !KilledWriterFills(s, RunWriter(p, late))
  {
    var x := s.procs[p];
    var (v, j) := Fill(s.pipe, x.pc.src, x.pc.i);
    StreamIntact(s.pipe, s.enq, s.deq);
    FillGood(s.pipe, s.enq, s.deq, x.pc.src, x.pc.i);
    StreamIntact(v, s.enq + x.pc.src[x.pc.i..j], s.deq);
    if SomeoneWaits(s) {
      var q :| 0 <= q < |s.procs| && s.procs[q].pc.WaitR?;
      FdsUpdate(s.procs, q, s.procs[q], false);
      assert ProcOk(s.procs[q], s.pipe) && s.pipe.readopen;
    }
    if KilledWriterFills(s, RunWriter(p, late)) {
      var q :| 0 <= q < |s.procs| && s.procs[q].pc.WaitR?;
      assert DoWrite(s, p, late).procs[q].pc.WaitR?;
    }
  }

  /** Every other step keeps readers justified, and this one never does: the exact condition. */
  lemma ReadersJustifiedIff(s: State, t: Step)
    requires Inv(s) && ReadersJustified(s) && Enabled(s, t)
    ensures ReadersJustified(Do(s, t)) <==> !KilledWriterFills(s, t)
  {
    match t
    case RunWriter(p, late) => WriterAndReaders(s, p, late);
    case RunReader(p, late) => StreamIntact(s.pipe, s.enq, s.deq);
    case _ =>
  }

  /** Readers are justified in the state `s` and after each of the steps `ts`. */
  ghost predicate AlwaysJustified(s: State, ts: seq<Step>)
    requires Legal(s, ts)
    decreases |ts|
  {
    ReadersJustified(s) && (ts != [] ==> AlwaysJustified(Do(s, ts[0]), ts[1..]))
  }

  /** No killed writer fills the pipe past a sleeping reader. */
  ghost predicate NeverFills(s: State, ts: seq<Step>)
    requires Legal(s, ts)
    decreases |ts|
  {
    ts != [] ==> !KilledWriterFills(s, ts[0]) && NeverFills(Do(s, ts[0]), ts[1..])
  }

  lemma {:induction false} JustifiedFrom(s: State, ts: seq<Step>)
    requires Inv(s) && ReadersJustified(s) && Legal(s, ts)
    ensures AlwaysJustified(s, ts) <==> NeverFills(s, ts)
    decreases |ts|
  {
    if ts != [] {
      ReadersJustifiedIff(s, ts[0]);
      StepKeeps(s, ts[0]);
      if ReadersJustified(Do(s, ts[0])) {
        JustifiedFrom(Do(s, ts[0]), ts[1..]);
      }
    }
  }

  /** Over whole runs: readers sleep for good reason throughout exactly if that step is never taken. */
  lemma RunJustifiedIff(s0: State, ts: seq<Step>)
    requires Init(s0) && Legal(s0, ts)
    ensures AlwaysJustified(s0, ts) <==> NeverFills(s0, ts)
  {
    InitKeeps(s0);
    JustifiedFrom(s0, ts);
  }

  /** A run in which it happens: a reader sleeps, a writer of 513 bytes is killed, then writes. */
  lemma SleepingReaderLeftBehind(s0: State, src: seq<int>) returns (ts: seq<Step>)
    requires InitBy(s0, 0) && |s0.procs| == 2 && !s0.procs[0].killed && |src| == PIPESIZE + 1
    ensures Legal(s0, ts) && !ReadersJustified(Exec(s0, ts)) && Occupancy(Exec(s0, ts).pipe) == PIPESIZE
  {
    ts := SleepingReader(s0, false);
    var s2 := Exec(s0, ts);
    RunExtend(s0, ts, StartWrite(1, src));
    ts := ts + [StartWrite(1, src)];
    RunExtend(s0, ts, Kill(1));
    ts := ts + [Kill(1)];
    var s4 := Exec(s0, ts);
    assert s4.procs[0].pc == WaitR(1) && s4.procs[1].pc == Writing(src, 0) && s4.procs[1].killed;
    RunExtend(s0, ts, RunWriter(1, false));
    ts := ts + [RunWriter(1, false)];
    StreamIntact(s4.pipe, [], []);
    FillGood(s4.pipe, [], [], src, 0);
    var j := Fill(s4.pipe, src, 0).1;
    var s5 := Exec(s0, ts);
    StreamIntact(s5.pipe, [] + src[0..j], []);
    assert s5.procs[0].pc == WaitR(1);
  }

  /** Process 0 gives process 1 a descriptor to write with and falls asleep reading. */
  lemma SleepingReader(s0: State, late: bool) returns (ts: seq<Step>)
    requires InitBy(s0, 0) && |s0.procs| == 2 && !s0.procs[0].killed
    ensures Legal(s0, ts)
    ensures Exec(s0, ts) == s0.(wref := 2, procs := [s0.procs[0].(pc := WaitR(1), killed := late),
                                                     s0.procs[1].(wfds := 1)])
  {
    RunExtend(s0, [], Dup(0, 1, true));
    ts := [] + [Dup(0, 1, true)];
    RunExtend(s0, ts, StartRead(0, 1));
    ts := ts + [StartRead(0, 1)];
    RunExtend(s0, ts, RunReader(0, late));
    ts := ts + [RunReader(0, late)];
  }

  // ---------- killed processes ----------

  /** The property one would want of kill: nobody who has been killed sleeps on the pipe. */
  ghost predicate KilledAwake(s: State) {
    forall p :: 0 <= p < |s.procs| && (s.procs[p].pc.WaitR? || s.procs[p].pc.WaitW?) ==> !s.procs[p].killed
  }

  /** A process finds that it is not killed and falls asleep, and the kill comes in between. */
  ghost predicate KilledTooLate(s: State, t: Step)
    requires Enabled(s, t)
  {
    || (t.RunReader? && t.late && Empty(s.pipe) && s.pipe.writeopen && !s.procs[t.p].killed)
    || (t.RunWriter? && t.late && s.pipe.readopen && !s.procs[t.p].killed
        && |s.procs[t.p].pc.src| - s.procs[t.p].pc.i > PIPESIZE - Occupancy(s.pipe))
  }

  lemma KilledAwakeIff(s: State, t: Step)
    requires Inv(s) && KilledAwake(s) && Enabled(s, t)
    ensures KilledAwake(Do(s, t)) <==> !KilledTooLate(s, t)
  {
    match t
    case RunWriter(p, late) => WriterAwake(s, p, late);
    case RunReader(p, late) => ReaderAwake(s, p, late);
    case _ =>
  }

  lemma WriterAwake(s: State, p: nat, late: bool)
    requires Inv(s) && KilledAwake(s) && Enabled(s, RunWriter(p, late))
    ensures KilledAwake(DoWrite(s, p, late)) <==> !KilledTooLate(s, RunWriter(p, late))
  {
    StreamIntact(s.pipe, s.enq, s.deq);
    FillGood(s.pipe, s.enq, s.deq, s.procs[p].pc.src, s.procs[p].pc.i);
    var x := DoWrite(s, p, late).procs[p];
    assert KilledTooLate(s, RunWriter(p, late)) ==> x.pc.WaitW? && x.killed;
  }

  lemma ReaderAwake(s: State, p: nat, late: bool)
    requires KilledAwake(s) && Enabled(s, RunReader(p, late))
    ensures KilledAwake(DoRead(s, p, late)) <==> !KilledTooLate(s, RunReader(p, late))
  {
    var x := DoRead(s, p, late).procs[p];
    assert KilledTooLate(s, RunReader(p, late)) ==> x.pc.WaitR? && x.killed;
  }

  ghost predicate AlwaysAwake(s: State, ts: seq<Step>)
    requires Legal(s, ts)
    decreases |ts|
  {
    KilledAwake(s) && (ts != [] ==> AlwaysAwake(Do(s, ts[0]), ts[1..]))
  }

  ghost predicate NeverTooLate(s: State, ts: seq<Step>)
    requires Legal(s, ts)
    decreases |ts|
  {
    ts != [] ==> !KilledTooLate(s, ts[0]) && NeverTooLate(Do(s, ts[0]), ts[1..])
  }

  lemma {:induction false} AwakeFrom(s: State, ts: seq<Step>)
    requires Inv(s) && KilledAwake(s) && Legal(s, ts)
    ensures AlwaysAwake(s, ts) <==> NeverTooLate(s, ts)
    decreases |ts|
  {
    if ts != [] {
      KilledAwakeIff(s, ts[0]);
      StepKeeps(s, ts[0]);
      if KilledAwake(Do(s, ts[0])) {
        AwakeFrom(Do(s, ts[0]), ts[1..]);
      }
    }
  }

  /** Over whole runs: no killed process sleeps on the pipe exactly if no kill comes too late. */
  lemma RunAwakeIff(s0: State, ts: seq<Step>)
    requires Init(s0) && Legal(s0, ts)
    ensures AlwaysAwake(s0, ts) <==> NeverTooLate(s0, ts)
  {
    InitKeeps(s0);
    AwakeFrom(s0, ts);
  }

  /** A run in which it happens: a reader is killed on its way to sleep. */
  lemma KilledReaderSleeps(s0: State) returns (ts: seq<Step>)
    requires InitBy(s0, 0) && |s0.procs| == 2 && !s0.procs[0].killed
    ensures Legal(s0, ts) && !KilledAwake(Exec(s0, ts))
  {
    ts := SleepingReader(s0, true);
    assert Exec(s0, ts).procs[0].killed;
  }
}
