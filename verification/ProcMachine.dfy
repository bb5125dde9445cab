/**
 fork, exit and wait of any number of processes, interleaved (kernel/proc.c).

 Each step happens between two moments at which ptable.lock is free.  fork's stores to the
 EMBRYO it builds are steps of their own, since they are made without the lock.
 */
module ProcMachine {
  import opened Proc

  /** `reaped` lists the process ids that wait calls have returned, in order. */
  datatype State = State(ps: Table, init: nat, nextpid: int, reaped: seq<int>)

  datatype Step =
    | Alloc(cur: nat, q: nat)           // allocproc in fork
    | AllocFails(q: nat)                // no kernel stack or no memory for the copy
    | SetParent(q: nat)                 // np->parent = curproc
    | Launch(q: nat)                    // np->state = RUNNABLE
    | DoExit(cur: nat)
    | DoWait(cur: nat, r: WaitResult)
    | Switch(q: nat)                    // the scheduler picks q
    | Yield(q: nat)
    | SleepElsewhere(q: nat, n: nat)    // sleep on a channel that is not a process
    | WakeElsewhere(n: nat)
    | DoKill(pid: int, q: nat)

  predicate Live(x: Proc) {
    x.state.SLEEPING? || x.state.RUNNABLE? || x.state.RUNNING?
  }

  ghost predicate InFork(ps: Table, cur: nat) {
    exists q :: 0 <= q < |ps| && ps[q].state.EMBRYO? && ps[q].maker == cur
  }

  ghost predicate Running(s: State, cur: nat) {
    cur < |s.ps| && s.ps[cur].state.RUNNING?
  }

  ghost predicate Enabled(s: State, t: Step) {
    match t
    case Alloc(cur, q) => Running(s, cur) && q < |s.ps| && s.ps[q].state.UNUSED?
    case AllocFails(q) => q < |s.ps| && s.ps[q].state.EMBRYO? && s.ps[q].parent == -1
    case SetParent(q) => q < |s.ps| && s.ps[q].state.EMBRYO?
    case Launch(q) => q < |s.ps| && s.ps[q].state.EMBRYO? && s.ps[q].parent == s.ps[q].maker
    case DoExit(cur) => Running(s, cur) && cur != s.init && !InFork(s.ps, cur)
    case DoWait(cur, r) => Running(s, cur) && IsWaitResult(s.ps, cur, r)
    case Switch(q) => q < |s.ps| && s.ps[q].state.RUNNABLE?
    case Yield(q) => Running(s, q)
    case SleepElsewhere(q, n) => Running(s, q)
    case WakeElsewhere(n) => true
    case DoKill(pid, q) => FirstPid(s.ps, pid, q)
  }

  ghost function Do(s: State, t: Step): (s': State)
    requires Enabled(s, t)
  {
    match t
    case Alloc(cur, q) =>
      s.(ps := s.ps[q := s.ps[q].(state := EMBRYO, pid := s.nextpid, maker := cur)], nextpid := s.nextpid + 1)
    case AllocFails(q) => s.(ps := s.ps[q := s.ps[q].(state := UNUSED)])
    case SetParent(q) => s.(ps := s.ps[q := s.ps[q].(parent := s.ps[q].maker)])
    case Launch(q) => s.(ps := s.ps[q := s.ps[q].(state := RUNNABLE)])
    case DoExit(cur) => s.(ps := ExitTable(s.ps, cur, s.init))
    case DoWait(cur, r) =>
      s.(ps := WaitTable(s.ps, cur, r), reaped := if r.Reap? then s.reaped + [s.ps[r.slot].pid] else s.reaped)
    case Switch(q) => s.(ps := s.ps[q := s.ps[q].(state := RUNNING, chan := NoChan)])
    case Yield(q) => s.(ps := s.ps[q := s.ps[q].(state := RUNNABLE)])
    case SleepElsewhere(q, n) => s.(ps := s.ps[q := s.ps[q].(state := SLEEPING, chan := Other(n))])
    case WakeElsewhere(n) => s.(ps := WakeAll(s.ps, Other(n)))
    case DoKill(pid, q) => s.(ps := KillSlot(s.ps, q))
  }

  // ---------- the family ----------

  /** Parents are live, makers of embryos are live, and only wait sleeps on a process channel, its own. */
  ghost predicate FamilySlot(ps: Table, q: nat)
    requires q < |ps|
  {
    var x := ps[q];
    && (x.parent == -1 || (0 <= x.parent < |ps| && x.parent != q && Live(ps[x.parent])))
    && (x.state.UNUSED? ==> x.parent == -1)
    && (x.state.EMBRYO? ==>
          0 <= x.maker < |ps| && x.maker != q && Live(ps[x.maker]) && (x.parent == -1 || x.parent == x.maker))
    && (x.state.SLEEPING? && x.chan.ProcChan? ==> x.chan.slot == q)
  }

  ghost predicate Family(ps: Table, init: nat) {
    && init < |ps| && Live(ps[init]) && ps[init].parent == -1
    && (forall q :: 0 <= q < |ps| ==> FamilySlot(ps, q))
    && forall q :: 0 <= q < |ps| && q != init ==> Parented(ps[q])
  }

  /** A process that is not the first has a parent from its first run until it is reaped. */
  predicate Parented(x: Proc) {
    Live(x) || x.state.ZOMBIE? ==> x.parent != -1
  }

  /** Nobody sleeps in wait while having an exited child. */
  ghost predicate WaitersJustified(ps: Table) {
    forall q, r :: 0 <= q < |ps| && 0 <= r < |ps| && SleepsOn(ps[r], ProcChan(r)) ==> !IsZombieChild(ps[q], r)
  }

  predicate Used(x: Proc) {
    !x.state.UNUSED?
  }

  ghost predicate PidsUnique(s: State) {
    && (forall q :: 0 <= q < |s.ps| && Used(s.ps[q]) ==> s.ps[q].pid < s.nextpid && s.ps[q].pid !in s.reaped)
    && (forall q, r :: 0 <= q < r < |s.ps| && Used(s.ps[q]) && Used(s.ps[r]) ==> s.ps[q].pid != s.ps[r].pid)
    && (forall i :: 0 <= i < |s.reaped| ==> s.reaped[i] < s.nextpid)
    && (forall i, j :: 0 <= i < j < |s.reaped| ==> s.reaped[i] != s.reaped[j])
  }

  ghost predicate Inv(s: State) {
    Family(s.ps, s.init) && WaitersJustified(s.ps) && PidsUnique(s)
  }

  /** One slot changes; everything that depends on the others stays. */
  lemma SlotUpdate(ps: Table, init: nat, q: nat, x: Proc)
    requires Family(ps, init) && WaitersJustified(ps) && q < |ps|
    requires Live(ps[q]) ==> Live(x) && x.parent == ps[q].parent
    requires FamilySlot(ps[q := x], q) && (q != init ==> Parented(x))
    requires x.state.ZOMBIE? ==> ps[q].state.ZOMBIE? && x.parent == ps[q].parent
    requires SleepsOn(x, ProcChan(q)) ==> forall j :: 0 <= j < |ps| && j != q ==> !IsZombieChild(ps[j], q)
    requires SleepsOn(x, ProcChan(q)) ==> !IsZombieChild(x, q)
    ensures Family(ps[q := x], init) && WaitersJustified(ps[q := x])
  {
    var t := ps[q := x];
    forall j | 0 <= j < |t|
      ensures FamilySlot(t, j)
    {
      assert FamilySlot(ps, j);
    }
    forall j, r | 0 <= j < |t| && 0 <= r < |t| && SleepsOn(t[r], ProcChan(r))
      ensures !IsZombieChild(t[j], r)
    {
      assert r != q ==> SleepsOn(ps[r], ProcChan(r));
    }
  }

  lemma WakeKeeps(ps: Table, init: nat, c: Chan)
    requires Family(ps, init) && WaitersJustified(ps)
    ensures Family(WakeAll(ps, c), init) && WaitersJustified(WakeAll(ps, c))
  {
    var t := WakeAll(ps, c);
    forall j | 0 <= j < |t|
      ensures FamilySlot(t, j)
    {
      assert FamilySlot(ps, j);
      if ps[j].state.EMBRYO? {
        assert Live(ps[ps[j].maker]);
      }
    }
    forall j, r | 0 <= j < |t| && 0 <= r < |t| && SleepsOn(t[r], ProcChan(r))
      ensures !IsZombieChild(t[j], r)
    {
      assert SleepsOn(ps[r], ProcChan(r)) && !IsZombieChild(ps[j], r);
    }
  }

  lemma ExitFamily(ps: Table, init: nat, cur: nat)
    requires Family(ps, init) && cur < |ps| && ps[cur].state.RUNNING? && cur != init && !InFork(ps, cur)
    ensures Family(ExitTable(ps, cur, init), init)
  {
    var t := ExitTable(ps, cur, init);
    assert Live(t[init]);
    forall q | 0 <= q < |t|
      ensures FamilySlot(t, q)
    {
      assert FamilySlot(ps, q);
      if ps[q].parent != -1 && ps[q].parent != cur {
        assert Live(t[ps[q].parent]);
      }
      if ps[q].state.EMBRYO? {
        assert ps[q].maker != cur;
        assert Live(t[ps[q].maker]);
      }
    }
  }

  /** The wakeups in exit come before anyone can be left asleep over a new zombie child. */
  lemma ExitWaiters(ps: Table, init: nat, cur: nat)
    requires Family(ps, init) && WaitersJustified(ps)
    requires cur < |ps| && ps[cur].state.RUNNING? && cur != init
    ensures WaitersJustified(ExitTable(ps, cur, init))
  {
    var t := ExitTable(ps, cur, init);
    forall q, r | 0 <= q < |t| && 0 <= r < |t| && SleepsOn(t[r], ProcChan(r))
      ensures !IsZombieChild(t[q], r)
    {
      assert r != cur && SleepsOn(ps[r], ProcChan(r)) && !IsZombieChild(ps[q], r);
      if q == cur {
        assert FamilySlot(ps, cur);
        assert t[cur].parent == ps[cur].parent != r;
      } else if ps[q].parent == cur && ps[q].state.ZOMBIE? {
        assert ZombieChildBelow(ps, cur, |ps|);
        assert r != init;
      }
    }
  }

  /**
   exit leaves no orphan: each child of the exiting process has init as its parent, whatever state it is
   in, and all others keep theirs; a child that was a zombie has init awake or woken.
   */
  lemma ExitHandsOver(s: State, cur: nat)
    requires Inv(s) && Enabled(s, DoExit(cur))
    ensures var s' := Do(s, DoExit(cur));
            && |s'.ps| == |s.ps| && s'.ps[cur].state.ZOMBIE?
            && (forall q :: 0 <= q < |s.ps| ==>
                  s'.ps[q].parent == if s.ps[q].parent == cur then s.init else s.ps[q].parent)
            && (forall q :: 0 <= q < |s.ps| && q != cur ==>
                  s'.ps[q].state == s.ps[q].state || (s.ps[q].state.SLEEPING? && s'.ps[q].state.RUNNABLE?))
            && ((exists q :: 0 <= q < |s.ps| && IsZombieChild(s.ps[q], cur)) ==>
                  !SleepsOn(s'.ps[s.init], ProcChan(s.init)))
  {
    var s' := Do(s, DoExit(cur));
    if q :| 0 <= q < |s.ps| && IsZombieChild(s.ps[q], cur) {
      assert ZombieChildBelow(s.ps, cur, |s.ps|);
    }
  }

  lemma {:induction false} FirstZombie(ps: Table, cur: nat, q: nat) returns (r: nat)
    requires q < |ps| && IsZombieChild(ps[q], cur)
    ensures r <= q && IsZombieChild(ps[r], cur) && forall j :: 0 <= j < r ==> !IsZombieChild(ps[j], cur)
    decreases q
  {
    if j :| 0 <= j < q && IsZombieChild(ps[j], cur) {
      r := FirstZombie(ps, cur, j);
    } else {
      r := q;
    }
  }

  /** A process with an exited child can reap one, and its wait does nothing else. */
  lemma ZombieIsReaped(s: State, cur: nat, q: nat) returns (r: nat)
    requires Running(s, cur) && q < |s.ps| && IsZombieChild(s.ps[q], cur)
    ensures r <= q && IsZombieChild(s.ps[r], cur) && Enabled(s, DoWait(cur, Reap(r)))
    ensures Do(s, DoWait(cur, Reap(r))).reaped == s.reaped + [s.ps[r].pid]
    ensures Do(s, DoWait(cur, Reap(r))).ps[r].state.UNUSED?
    ensures forall w :: Enabled(s, DoWait(cur, w)) ==> w == Reap(r)
  {
    r := FirstZombie(s.ps, cur, q);
  }

  lemma ExitPids(s: State, cur: nat)
    requires PidsUnique(s) && cur < |s.ps| && s.ps[cur].state.RUNNING?
    ensures PidsUnique(s.(ps := ExitTable(s.ps, cur, s.init)))
  {
    var t := ExitTable(s.ps, cur, s.init);
    assert forall q :: 0 <= q < |t| ==> t[q].pid == s.ps[q].pid && (Used(t[q]) <==> Used(s.ps[q]));
  }

  lemma WaitKeeps(s: State, cur: nat, r: WaitResult)
    requires Inv(s) && Running(s, cur) && IsWaitResult(s.ps, cur, r)
    ensures Inv(Do(s, DoWait(cur, r)))
  {
    match r
    case NoChild =>
    case GoToSleep =>
      assert FamilySlot(s.ps, cur);
      SlotUpdate(s.ps, s.init, cur, s.ps[cur].(state := SLEEPING, chan := ProcChan(cur)));
    case Reap(q) =>
      assert FamilySlot(s.ps, q);
      SlotUpdate(s.ps, s.init, q, Reaped(s.ps[q]));
  }

  /** A slot that keeps its id, or takes the next one, keeps ids unique. */
  lemma PidUpdate(s: State, q: nat, x: Proc, next: int)
    requires PidsUnique(s) && q < |s.ps|
    requires Used(x) ==>
               ((next == s.nextpid && x.pid == s.ps[q].pid && Used(s.ps[q]))
                || (next == s.nextpid + 1 && x.pid == s.nextpid))
    requires next >= s.nextpid
    ensures PidsUnique(s.(ps := s.ps[q := x], nextpid := next))
  {
  }

  function SlotOf(t: Step): (q: nat) {
    match t
    case Alloc(_, q) => q
    case AllocFails(q) => q
    case SetParent(q) => q
    case Launch(q) => q
    case DoExit(q) => q
    case DoWait(q, _) => q
    case Switch(q) => q
    case Yield(q) => q
    case SleepElsewhere(q, _) => q
    case WakeElsewhere(n) => n
    case DoKill(_, q) => q
  }

  lemma OneSlotKeeps(s: State, t: Step)
    requires Inv(s) && Enabled(s, t) && !t.DoExit? && !t.DoWait? && !t.WakeElsewhere?
    ensures Inv(Do(s, t))
  {
    var q, s' := SlotOf(t), Do(s, t);
    var x := s'.ps[q];
    assert FamilySlot(s.ps, q);
    assert s'.ps == s.ps[q := x];
    SlotUpdate(s.ps, s.init, q, x);
    PidUpdate(s, q, x, s'.nextpid);
  }

  lemma StepKeeps(s: State, t: Step)
    requires Inv(s) && Enabled(s, t)
    ensures Inv(Do(s, t))
  {
    match t
    case DoExit(cur) =>
      ExitFamily(s.ps, s.init, cur);
      ExitWaiters(s.ps, s.init, cur);
      ExitPids(s, cur);
    case DoWait(cur, r) => WaitKeeps(s, cur, r);
    case WakeElsewhere(n) => WakeKeeps(s.ps, s.init, Other(n));
    case _ => OneSlotKeeps(s, t);
  }

  // ---------- whole runs ----------

  ghost predicate Legal(s: State, ts: seq<Step>)
    decreases |ts|
  {
    ts == [] || (Enabled(s, ts[0]) && Legal(Do(s, ts[0]), ts[1..]))
  }

  ghost function Exec(s: State, ts: seq<Step>): (s': State)
    requires Legal(s, ts)
    decreases |ts|
  {
    if ts == [] then s else Exec(Do(s, ts[0]), ts[1..])
  }

  /** After userinit: the first process is runnable, all other slots are unused. */
  ghost predicate Boot(s: State) {
    && s.init < |s.ps| && s.reaped == []
    && s.ps[s.init] == Proc(RUNNABLE, 1, -1, NoChan, false, -1) && s.nextpid == 2
    && forall q :: 0 <= q < |s.ps| && q != s.init ==> s.ps[q] == Proc(UNUSED, 0, -1, NoChan, false, -1)
  }

  lemma {:induction false} RunKeeps(s: State, ts: seq<Step>)
    requires Inv(s) && Legal(s, ts)
    ensures Inv(Exec(s, ts)) && Exec(s, ts).init == s.init
    decreases |ts|
  {
    if ts != [] {
      StepKeeps(s, ts[0]);
      RunKeeps(Do(s, ts[0]), ts[1..]);
    }
  }

  /**
   Exit and wait, in every run and whenever ptable.lock is free: every process but the first, from its
   first run until it is reaped, has a parent; the parent of any process is neither a zombie
   nor an embryo nor unused; no process sleeps in wait over an exited child;
   and no process id is ever returned by two waits.
   */
  lemma ExitAndWait(s0: State, ts: seq<Step>)
    requires Boot(s0) && Legal(s0, ts)
    ensures var s := Exec(s0, ts);
            && (forall q :: 0 <= q < |s.ps| && s.ps[q].parent != -1 ==>
                  0 <= s.ps[q].parent < |s.ps| && Live(s.ps[s.ps[q].parent]))
            && (forall q :: 0 <= q < |s.ps| && q != s0.init && (Live(s.ps[q]) || s.ps[q].state.ZOMBIE?) ==>
                  s.ps[q].parent != -1)
            && (forall q, r :: 0 <= q < |s.ps| && 0 <= r < |s.ps| && SleepsOn(s.ps[r], ProcChan(r)) ==>
                  !IsZombieChild(s.ps[q], r))
            && (forall i, j :: 0 <= i < j < |s.reaped| ==> s.reaped[i] != s.reaped[j])
  {
    assert forall q :: 0 <= q < |s0.ps| ==> FamilySlot(s0.ps, q);
    RunKeeps(s0, ts);
    var s := Exec(s0, ts);
    forall q | 0 <= q < |s.ps| && s.ps[q].parent != -1
      ensures 0 <= s.ps[q].parent < |s.ps| && Live(s.ps[s.ps[q].parent])
    {
      assert FamilySlot(s.ps, q);
    }
  }
}
