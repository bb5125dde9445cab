/**
 sleep and wakeup (kernel/proc.c) as a concurrent protocol: any number of processes, locks and
 channels, one step per lock operation or state change.

 Channel `c` is used with one lock, `guard[c]`; lock PT is ptable.lock, and it may be a guard
 itself (wait sleeps that way).  `ver[c]` counts how often the condition behind `c` was
 changed, so a process that is about to sleep remembers which version it tested.
 */
module SleepWakeup {

  const PT: nat := 0

  datatype Sched = Running | Sleeping | Runnable

  datatype Pc =
    | Run                                      // anywhere outside sleep and wakeup
    | Tested(c: nat, v: nat)                   // called sleep(c, guard) after testing version v
    | GotPt(c: nat, v: nat)                    // holds both locks
    | Released(c: nat, v: nat)                 // gave up the guard
    | Asleep(c: nat, v: nat)                   // switched out in sched()
    | Woken(c: nat)                            // switched in again, holding ptable.lock
    | Reacquire(c: nat)                        // waiting for the guard
    | WakeWait(c: nat, v: nat)                 // called wakeup(c) at version v
    | Scanning(c: nat, v: nat, i: nat, rel: bool)  // wakeup1 has passed the first i slots

  datatype Proc = Proc(pc: Pc, sched: Sched, chan: int)

  /** `owner[k]` is the process holding lock k, or -1; `done[c]` the newest version a finished wakeup announced. */
  datatype State = State(procs: seq<Proc>, owner: seq<int>, guard: seq<nat>, ver: seq<nat>, done: seq<nat>)

  datatype Step =
    | Acquire(p: nat, k: nat)
    | Release(p: nat, k: nat)
    | Change(p: nat, c: nat)
    | Test(p: nat, c: nat)
    | SleepStep(p: nat)
    | Resume(p: nat)
    | WakeCall(p: nat, c: nat)
    | WakeStep(p: nat)
    | Kill(p: nat, q: nat)

  predicate Shape(s: State) {
    && |s.owner| > PT
    && |s.guard| == |s.ver| == |s.done|
    && (forall c :: 0 <= c < |s.guard| ==> s.guard[c] < |s.owner|)
  }

  predicate IsRun(s: State, p: nat) {
    p < |s.procs| && s.procs[p].pc.Run? && s.procs[p].sched.Running?
  }

  ghost predicate Enabled(s: State, t: Step)
    requires Shape(s)
  {
    match t
    case Acquire(p, k) => IsRun(s, p) && k < |s.owner| && s.owner[k] == -1
    case Release(p, k) => IsRun(s, p) && k < |s.owner| && s.owner[k] == p
    case Change(p, c) => IsRun(s, p) && c < |s.guard| && s.owner[s.guard[c]] == p
    case Test(p, c) => IsRun(s, p) && c < |s.guard| && s.owner[s.guard[c]] == p
    case SleepStep(p) => p < |s.procs| && SleepEnabled(s, p, s.procs[p].pc)
    case Resume(p) => p < |s.procs| && s.procs[p].pc.Asleep? && s.procs[p].sched.Runnable? && s.owner[PT] == -1
    case WakeCall(p, c) => IsRun(s, p) && c < |s.guard|
    case WakeStep(p) =>
      && p < |s.procs|
      && ((s.procs[p].pc.WakeWait? && s.owner[PT] == -1) || s.procs[p].pc.Scanning?)
    case Kill(p, q) => IsRun(s, p) && q < |s.procs| && s.owner[PT] == -1
  }

  ghost predicate SleepEnabled(s: State, p: nat, pc: Pc)
    requires Shape(s)
  {
    match pc
    case Tested(c, v) => c < |s.guard| && (s.guard[c] != PT ==> s.owner[PT] == -1)
    case GotPt(c, v) => c < |s.guard|
    case Released(c, v) => true
    case Woken(c) => c < |s.guard|
    case Reacquire(c) => c < |s.guard| && s.owner[s.guard[c]] == -1
    case _ => false
  }

  ghost function SetPc(s: State, p: nat, pc: Pc): (s': State)
    requires p < |s.procs|
  {
    s.(procs := s.procs[p := s.procs[p].(pc := pc)])
  }

  ghost function Do(s: State, t: Step): (s': State)
    requires Shape(s) && Enabled(s, t)
  {
    match t
    case Acquire(p, k) => s.(owner := s.owner[k := p])
    case Release(p, k) => s.(owner := s.owner[k := -1])
    case Change(p, c) => s.(ver := s.ver[c := s.ver[c] + 1])
    case Test(p, c) => SetPc(s, p, Tested(c, s.ver[c]))
    case SleepStep(p) => DoSleep(s, p)
    case Resume(p) =>
      s.(owner := s.owner[PT := p],
         procs := s.procs[p := s.procs[p].(sched := Running, pc := Woken(s.procs[p].pc.c))])
    case WakeCall(p, c) =>
      // exit already holds ptable.lock and calls wakeup1 directly
      SetPc(s, p, if s.owner[PT] == p then Scanning(c, s.ver[c], 0, false) else WakeWait(c, s.ver[c]))
    case WakeStep(p) => DoWake(s, p)
    case Kill(p, q) => s.(procs := s.procs[q := Rouse(s.procs[q])])
  }

  function Rouse(x: Proc): (r: Proc) {
    if x.sched.Sleeping? then x.(sched := Runnable) else x
  }

  /** The statements of sleep, one lock operation at a time. */
  ghost function DoSleep(s: State, p: nat): (s': State)
    requires Shape(s) && p < |s.procs| && SleepEnabled(s, p, s.procs[p].pc)
  {
    match s.procs[p].pc
    case Tested(c, v) =>
      if s.guard[c] != PT then SetPc(s.(owner := s.owner[PT := p]), p, GotPt(c, v))
      else SetPc(s, p, Released(c, v))
    case GotPt(c, v) => SetPc(s.(owner := s.owner[s.guard[c] := -1]), p, Released(c, v))
    case Released(c, v) =>
      // p->chan = chan; p->state = SLEEPING; sched() passes ptable.lock to the scheduler
      s.(owner := s.owner[PT := -1], procs := s.procs[p := Proc(Asleep(c, v), Sleeping, c)])
    case Woken(c) =>
      var s1 := s.(procs := s.procs[p := s.procs[p].(chan := -1)]);
      if s.guard[c] != PT then SetPc(s1.(owner := s.owner[PT := -1]), p, Reacquire(c))
      else SetPc(s1, p, Run)
    case Reacquire(c) => SetPc(s.(owner := s.owner[s.guard[c] := p]), p, Run)
  }

  ghost predicate SleepsOn(x: Proc, c: nat) {
    x.sched.Sleeping? && x.chan == c
  }

  /** wakeup: take ptable.lock, pass over the table slot by slot, let go of the lock. */
  ghost function DoWake(s: State, p: nat): (s': State)
    requires Shape(s) && Enabled(s, WakeStep(p))
  {
    match s.procs[p].pc
    case WakeWait(c, v) => SetPc(s.(owner := s.owner[PT := p]), p, Scanning(c, v, 0, true))
    case Scanning(c, v, i, rel) =>
      if i < |s.procs| then ScanSlot(s, p, c, v, i, rel) else FinishWake(s, p, c, v, rel)
  }

  ghost function ScanSlot(s: State, p: nat, c: nat, v: nat, i: nat, rel: bool): (s': State)
    requires p < |s.procs| && i < |s.procs|
  {
    var s1 := if SleepsOn(s.procs[i], c) then s.(procs := s.procs[i := Rouse(s.procs[i])]) else s;
    SetPc(s1, p, Scanning(c, v, i + 1, rel))
  }

  ghost function FinishWake(s: State, p: nat, c: nat, v: nat, rel: bool): (s': State)
    requires Shape(s) && p < |s.procs|
  {
    var s1 := if c < |s.done| && s.done[c] < v then s.(done := s.done[c := v]) else s;
    SetPc(if rel then s1.(owner := s.owner[PT := -1]) else s1, p, Run)
  }

  // ---------- the invariant ----------

  predicate HoldsPt(pc: Pc) {
    pc.GotPt? || pc.Released? || pc.Woken? || pc.Scanning?
  }

  ghost predicate ProcOk(s: State, p: nat)
    requires Shape(s) && p < |s.procs|
  {
    var x := s.procs[p];
    && (x.pc.Asleep? <==> !x.sched.Running?)
    && (x.sched.Sleeping? ==> x.chan == x.pc.c && x.pc.c < |s.guard|)
    && (HoldsPt(x.pc) ==> s.owner[PT] == p)
    && match x.pc
       case Tested(c, v) => c < |s.guard| && s.owner[s.guard[c]] == p && v == s.ver[c]
       case GotPt(c, v) => c < |s.guard| && s.guard[c] != PT && s.owner[s.guard[c]] == p && v == s.ver[c]
       case Released(c, v) => c < |s.guard| && s.done[c] <= v
       case Asleep(c, v) => c < |s.guard| && (x.sched.Sleeping? ==> s.done[c] <= v)
       case Woken(c) => c < |s.guard|
       case Reacquire(c) => c < |s.guard| && x.chan == -1
       case WakeWait(c, v) => c < |s.guard| && v <= s.ver[c]
       case Scanning(c, v, i, _) =>
         c < |s.guard| && v <= s.ver[c] && forall q :: 0 <= q < i && q < |s.procs| ==> !SleepsOn(s.procs[q], c)
       case _ => true
  }

  ghost predicate Inv(s: State) {
    && Shape(s)
    && (forall c :: 0 <= c < |s.done| ==> s.done[c] <= s.ver[c])
    && (forall p :: 0 <= p < |s.procs| ==> ProcOk(s, p))
  }

  lemma LockStepKeeps(s: State, t: Step)
    requires Inv(s) && Enabled(s, t) && (t.Acquire? || t.Release? || t.Test? || t.WakeCall?)
    ensures Inv(Do(s, t))
  {
    var s' := Do(s, t);
    forall q | 0 <= q < |s.procs|
      ensures ProcOk(s', q)
    {
      assert ProcOk(s, t.p) && ProcOk(s, q);
    }
  }

  lemma ChangeKeeps(s: State, p: nat, c: nat)
    requires Inv(s) && Enabled(s, Change(p, c))
    ensures Inv(Do(s, Change(p, c)))
  {
    var s' := Do(s, Change(p, c));
    forall q | 0 <= q < |s.procs|
      ensures ProcOk(s', q)
    {
      assert ProcOk(s, p) && ProcOk(s, q);
    }
  }

  /** The sleeper's own condition after one step of sleep. */
  lemma SleeperOk(s: State, p: nat)
    requires Inv(s) && p < |s.procs| && SleepEnabled(s, p, s.procs[p].pc)
    ensures ProcOk(DoSleep(s, p), p)
  {
    assert ProcOk(s, p);
  }

  /** Everybody else's condition after one step of `p`'s sleep. */
  lemma BystanderOk(s: State, p: nat, q: nat)
    requires Inv(s) && p < |s.procs| && SleepEnabled(s, p, s.procs[p].pc)
    requires q < |s.procs| && q != p
    ensures ProcOk(DoSleep(s, p), q)
  {
    assert ProcOk(s, p) && ProcOk(s, q);
  }

  lemma SleepKeeps(s: State, p: nat)
    requires Inv(s) && p < |s.procs| && SleepEnabled(s, p, s.procs[p].pc)
    ensures Inv(DoSleep(s, p))
  {
    SleeperOk(s, p);
    forall q | 0 <= q < |s.procs| && q != p
      ensures ProcOk(DoSleep(s, p), q)
    {
      BystanderOk(s, p, q);
    }
  }

  lemma ResumeKeeps(s: State, p: nat)
    requires Inv(s) && Enabled(s, Resume(p))
    ensures Inv(Do(s, Resume(p)))
  {
    var s' := Do(s, Resume(p));
    forall q | 0 <= q < |s.procs|
      ensures ProcOk(s', q)
    {
      assert ProcOk(s, p) && ProcOk(s, q);
    }
  }

  lemma KillKeeps(s: State, p: nat, q: nat)
    requires Inv(s) && Enabled(s, Kill(p, q))
    ensures Inv(Do(s, Kill(p, q)))
  {
    var s' := Do(s, Kill(p, q));
    forall r | 0 <= r < |s.procs|
      ensures ProcOk(s', r)
    {
      assert ProcOk(s, r);
    }
  }

  lemma ScanKeeps(s: State, p: nat, c: nat, v: nat, i: nat, rel: bool)
    requires Inv(s) && p < |s.procs| && s.procs[p].pc == Scanning(c, v, i, rel) && i < |s.procs|
    ensures Inv(ScanSlot(s, p, c, v, i, rel))
  {
    var s' := ScanSlot(s, p, c, v, i, rel);
    assert ProcOk(s, p);
    forall q | 0 <= q < |s.procs|
      ensures ProcOk(s', q)
    {
      assert ProcOk(s, q);
    }
  }

  lemma FinishKeeps(s: State, p: nat, c: nat, v: nat, i: nat, rel: bool)
    requires Inv(s) && p < |s.procs| && s.procs[p].pc == Scanning(c, v, i, rel) && i >= |s.procs|
    ensures Inv(FinishWake(s, p, c, v, rel))
  {
    var s' := FinishWake(s, p, c, v, rel);
    assert ProcOk(s, p);
    forall q | 0 <= q < |s.procs|
      ensures ProcOk(s', q)
    {
      assert ProcOk(s, q);
      assert !SleepsOn(s.procs[q], c);
    }
  }

  lemma WakeKeeps(s: State, p: nat)
    requires Inv(s) && Enabled(s, WakeStep(p))
    ensures Inv(DoWake(s, p))
  {
    match s.procs[p].pc
    case WakeWait(c, v) =>
      forall q | 0 <= q < |s.procs|
        ensures ProcOk(DoWake(s, p), q)
      {
        assert ProcOk(s, p) && ProcOk(s, q);
      }
    case Scanning(c, v, i, rel) =>
      if i < |s.procs| {
        ScanKeeps(s, p, c, v, i, rel);
      } else {
        FinishKeeps(s, p, c, v, i, rel);
      }
  }

  lemma StepKeeps(s: State, t: Step)
    requires Inv(s) && Enabled(s, t)
    ensures Inv(Do(s, t))
  {
    match t
    case Change(p, c) => ChangeKeeps(s, p, c);
    case SleepStep(p) => SleepKeeps(s, p);
    case Resume(p) => ResumeKeeps(s, p);
    case WakeStep(p) => WakeKeeps(s, p);
    case Kill(p, q) => KillKeeps(s, p, q);
    case _ => LockStepKeeps(s, t);
  }

  // ---------- whole runs ----------

  ghost predicate Legal(s: State, ts: seq<Step>)
    requires Shape(s)
    decreases |ts|
  {
    ts == [] || (Enabled(s, ts[0]) && Shape(Do(s, ts[0])) && Legal(Do(s, ts[0]), ts[1..]))
  }

  ghost function Exec(s: State, ts: seq<Step>): (s': State)
    requires Shape(s) && Legal(s, ts)
    decreases |ts|
  {
    if ts == [] then s else Exec(Do(s, ts[0]), ts[1..])
  }

  /** `done` never goes back, and channels and processes stay. */
  ghost predicate Later(s: State, s': State) {
    && |s'.done| == |s.done| && |s'.procs| == |s.procs|
    && forall c :: 0 <= c < |s.done| ==> s.done[c] <= s'.done[c]
  }

  lemma {:induction false} RunKeeps(s: State, ts: seq<Step>)
    requires Inv(s) && Legal(s, ts)
    ensures Inv(Exec(s, ts)) && Later(s, Exec(s, ts))
    decreases |ts|
  {
    if ts != [] {
      StepKeeps(s, ts[0]);
      assert Later(s, Do(s, ts[0]));
      RunKeeps(Do(s, ts[0]), ts[1..]);
    }
  }

  ghost predicate Init(s: State) {
    && Shape(s)
    && (forall c :: 0 <= c < |s.done| ==> s.done[c] <= s.ver[c])
    && (forall p :: 0 <= p < |s.procs| ==> s.procs[p].pc.Run? && s.procs[p].sched.Running?)
  }

  lemma InitKeeps(s: State)
    requires Init(s)
    ensures Inv(s)
  {
    forall p | 0 <= p < |s.procs| ensures ProcOk(s, p) {
    }
  }

  /**
   No lost wakeup.  In any run, let process `w` finish a wakeup of channel `c` that it called when
   the condition had version `v`.  From then on, through any further steps, no process is SLEEPING
   on `c` having tested an older version of the condition, whichever lock guards the channel.
   */
  lemma NoLostWakeup(s0: State, before: seq<Step>, w: nat, after: seq<Step>)
    requires Init(s0) && Legal(s0, before)
    requires var s := Exec(s0, before);
             && Shape(s) && w < |s.procs| && s.procs[w].pc.Scanning? && s.procs[w].pc.i >= |s.procs|
             && Shape(Do(s, WakeStep(w))) && Legal(Do(s, WakeStep(w)), after)
    ensures var s := Exec(s0, before);
            var end := Exec(Do(s, WakeStep(w)), after);
            forall p :: 0 <= p < |end.procs| && SleepsOn(end.procs[p], s.procs[w].pc.c) ==>
              end.procs[p].pc.Asleep? && end.procs[p].pc.v >= s.procs[w].pc.v
  {
    RunKeeps(s0, before);
    var s := Exec(s0, before);
    assert ProcOk(s, w);
    StepKeeps(s, WakeStep(w));
    var mid := Do(s, WakeStep(w));
    RunKeeps(mid, after);
    var end, c := Exec(mid, after), s.procs[w].pc.c;
    assert mid.done[c] >= s.procs[w].pc.v;
    forall p | 0 <= p < |end.procs| && SleepsOn(end.procs[p], c)
      ensures end.procs[p].pc.Asleep? && end.procs[p].pc.v >= s.procs[w].pc.v
    {
      assert ProcOk(end, p);
    }
  }

  // ---------- what sleep gives back ----------

  predicate InSleep(pc: Pc) {
    pc.Tested? || pc.GotPt? || pc.Released? || pc.Asleep? || pc.Woken? || pc.Reacquire?
  }

  /** The channel that process `p` has called sleep with last, `c` before the run. */
  ghost function Channel(ts: seq<Step>, p: nat, c: nat): (r: nat)
    decreases |ts|
  {
    if ts == [] then c else Channel(ts[1..], p, if ts[0].Test? && ts[0].p == p then ts[0].c else c)
  }

  /** A process inside sleep stays with the channel it has called sleep with. */
  lemma {:induction false} SleepsWith(s: State, ts: seq<Step>, p: nat, c: nat)
    requires Shape(s) && Legal(s, ts) && p < |s.procs| && (InSleep(s.procs[p].pc) ==> s.procs[p].pc.c == c)
    ensures var s' := Exec(s, ts);
            p < |s'.procs| && (InSleep(s'.procs[p].pc) ==> s'.procs[p].pc.c == Channel(ts, p, c))
    decreases |ts|
  {
    if ts != [] {
      SleepsWith(Do(s, ts[0]), ts[1..], p, if ts[0].Test? && ts[0].p == p then ts[0].c else c);
    }
  }

  /**
   sleep returns with the guard.  After every run, when a step takes a process out of sleep, it holds the lock
   that guards the channel it has called sleep with, and is no longer on the channel.
   */
  lemma SleepReturnsHeld(s0: State, ts: seq<Step>, p: nat, c: nat)
    requires Init(s0) && Legal(s0, ts) && Shape(Exec(s0, ts)) && Enabled(Exec(s0, ts), SleepStep(p))
    requires Do(Exec(s0, ts), SleepStep(p)).procs[p].pc.Run?
    ensures var s, s', k := Exec(s0, ts), Do(Exec(s0, ts), SleepStep(p)), Channel(ts, p, c);
            && k < |s.guard| && s.guard[k] < |s'.owner| && s'.owner[s.guard[k]] == p
            && s'.procs[p].chan == -1 && s'.procs[p].sched.Running?
  {
    InitKeeps(s0);
    RunKeeps(s0, ts);
    SleepsWith(s0, ts, p, c);
    assert ProcOk(Exec(s0, ts), p);
  }
}
