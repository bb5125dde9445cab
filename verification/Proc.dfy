/**
 The process table of kernel/proc.c: allocation, fork, exit, wait, kill and wakeup.

 `parent` and channel values that are process pointers in the source are slot numbers here, -1
 standing for the null pointer.  The class runs the table-scanning loops; each is proved equal
 to a function on the table.  ProcMachine interleaves any number of processes, a step
 being one stretch with ptable.lock held, or one of the stores that fork makes without it.
 */
module Proc {

  datatype PState = UNUSED | EMBRYO | SLEEPING | RUNNABLE | RUNNING | ZOMBIE

  datatype Chan = NoChan | ProcChan(slot: nat) | Other(n: nat)

  /** `maker` is the slot of the process inside fork that is setting up an EMBRYO. */
  datatype Proc = Proc(state: PState, pid: int, parent: int, chan: Chan, killed: bool, maker: int)

  type Table = seq<Proc>

  function ChanOf(slot: int): (c: Chan) {
    if slot < 0 then NoChan else ProcChan(slot)
  }

  predicate SleepsOn(x: Proc, c: Chan) {
    x.state.SLEEPING? && x.chan == c
  }

  function Rouse(x: Proc, c: Chan): (r: Proc) {
    if SleepsOn(x, c) then x.(state := RUNNABLE) else x
  }

  function WakeAll(ps: Table, c: Chan): (r: Table)
    ensures |r| == |ps|
  {
    seq(|ps|, q requires 0 <= q < |ps| => Rouse(ps[q], c))
  }

  // ---------- exit ----------

  predicate ZombieChildBelow(ps: Table, cur: nat, k: nat) {
    exists q :: 0 <= q < k && q < |ps| && ps[q].parent == cur && ps[q].state.ZOMBIE?
  }

  /** Slot `q` after exit has woken its parent and passed the first `k` slots of the table. */
  function ExitSlot(ps: Table, cur: nat, init: nat, k: nat, q: nat): (r: Proc)
    requires cur < |ps| && q < |ps|
  {
    var x := Rouse(ps[q], ChanOf(ps[cur].parent));
    var y := if ZombieChildBelow(ps, cur, k) then Rouse(x, ProcChan(init)) else x;
    if q < k && ps[q].parent == cur then y.(parent := init) else y
  }

  function ExitScan(ps: Table, cur: nat, init: nat, k: nat): (r: Table)
    requires cur < |ps|
    ensures |r| == |ps|
  {
    seq(|ps|, q requires 0 <= q < |ps| => ExitSlot(ps, cur, init, k, q))
  }

  /** exit with ptable.lock held: wake the parent, hand children to init, become a zombie. */
  function ExitTable(ps: Table, cur: nat, init: nat): (r: Table)
    requires cur < |ps|
    ensures |r| == |ps|
  {
    var t := ExitScan(ps, cur, init, |ps|);
    t[cur := t[cur].(state := ZOMBIE)]
  }

  // ---------- wait ----------

  predicate IsZombieChild(x: Proc, cur: nat) {
    x.parent == cur && x.state.ZOMBIE?
  }

  predicate HasKids(ps: Table, cur: nat) {
    exists q :: 0 <= q < |ps| && ps[q].parent == cur
  }

  function Reaped(x: Proc): (r: Proc) {
    x.(state := UNUSED, pid := 0, parent := -1, killed := false)
  }

  /** What one pass of wait does. */
  datatype WaitResult = Reap(slot: nat) | NoChild | GoToSleep

  ghost predicate IsWaitResult(ps: Table, cur: nat, r: WaitResult)
    requires cur < |ps|
  {
    match r
    case Reap(q) => q < |ps| && IsZombieChild(ps[q], cur) && forall j :: 0 <= j < q ==> !IsZombieChild(ps[j], cur)
    case NoChild =>
      (forall j :: 0 <= j < |ps| ==> !IsZombieChild(ps[j], cur)) && (!HasKids(ps, cur) || ps[cur].killed)
    case GoToSleep =>
      (forall j :: 0 <= j < |ps| ==> !IsZombieChild(ps[j], cur)) && HasKids(ps, cur) && !ps[cur].killed
  }

  function WaitTable(ps: Table, cur: nat, r: WaitResult): (t: Table)
    requires cur < |ps| && (r.Reap? ==> r.slot < |ps|)
    ensures |t| == |ps|
  {
    match r
    case Reap(q) => ps[q := Reaped(ps[q])]
    case NoChild => ps
    case GoToSleep => ps[cur := ps[cur].(state := SLEEPING, chan := ProcChan(cur))]
  }

  // ---------- the loops ----------

  class ProcTable {
    var proc: Table
    const initproc: nat

    constructor (n: nat, initproc: nat)
      ensures |proc| == n && this.initproc == initproc
      ensures forall q :: 0 <= q < n ==> proc[q] == Proc(UNUSED, 0, -1, NoChan, false, -1)
    {
      proc := seq(n, _ => Proc(UNUSED, 0, -1, NoChan, false, -1));
      this.initproc := initproc;
    }

    /** wakeup1: everybody sleeping on `c`, and nobody else, becomes runnable. */
    method Wakeup1(c: Chan)
      modifies this`proc
      ensures proc == WakeAll(old(proc), c)
    {
      var q := 0;
      while q < |proc|
        invariant 0 <= q <= |proc| == |old(proc)|
        invariant forall j :: 0 <= j < q ==> proc[j] == Rouse(old(proc)[j], c)
        invariant forall j :: q <= j < |proc| ==> proc[j] == old(proc)[j]
      {
        if proc[q].state == SLEEPING && proc[q].chan == c {
          proc := proc[q := proc[q].(state := RUNNABLE)];
        }
        q := q + 1;
      }
    }

    method Exit(cur: nat)
      requires cur < |proc|
      modifies this`proc
      ensures proc == ExitTable(old(proc), cur, initproc)
    {
      ghost var ps := proc;
      Wakeup1(ChanOf(proc[cur].parent));
      var q := 0;
      assert proc == ExitScan(ps, cur, initproc, 0);
      while q < |proc|
        invariant 0 <= q <= |proc| == |ps|
        invariant proc == ExitScan(ps, cur, initproc, q)
      {
        assert proc[q].parent == ps[q].parent && (proc[q].state.ZOMBIE? <==> ps[q].state.ZOMBIE?);
        if proc[q].parent == cur {
          proc := proc[q := proc[q].(parent := initproc)];
          if proc[q].state == ZOMBIE {
            Wakeup1(ProcChan(initproc));
          }
        }
        ExitScanStep(ps, cur, initproc, q);
        assert forall j :: 0 <= j < |proc| ==> proc[j] == ExitSlot(ps, cur, initproc, q + 1, j);
        q := q + 1;
      }
      proc := proc[cur := proc[cur].(state := ZOMBIE)];
    }

    method Wait(cur: nat) returns (r: WaitResult)
      requires cur < |proc|
      modifies this`proc
      ensures IsWaitResult(old(proc), cur, r) && proc == WaitTable(old(proc), cur, r)
    {
      var havekids := false;
      var q := 0;
      while q < |proc|
        invariant 0 <= q <= |proc| && proc == old(proc)
        invariant havekids <==> exists j :: 0 <= j < q && proc[j].parent == cur
        invariant forall j :: 0 <= j < q ==> !IsZombieChild(proc[j], cur)
      {
        if proc[q].parent == cur {
          havekids := true;
          if proc[q].state == ZOMBIE {
            proc := proc[q := Reaped(proc[q])];
            return Reap(q);
          }
        }
        q := q + 1;
      }
      if !havekids || proc[cur].killed {
        return NoChild;
      }
      proc := proc[cur := proc[cur].(state := SLEEPING, chan := ProcChan(cur))];
      return GoToSleep;
    }

    /** The search of allocproc: the first unused slot, if any. */
    method FindUnused() returns (q: nat, found: bool)
      ensures found ==> q < |proc| && proc[q].state.UNUSED? && forall j :: 0 <= j < q ==> !proc[j].state.UNUSED?
      ensures !found ==> forall j :: 0 <= j < |proc| ==> !proc[j].state.UNUSED?
    {
      q := 0;
      while q < |proc|
        invariant 0 <= q <= |proc| && forall j :: 0 <= j < q ==> !proc[j].state.UNUSED?
      {
        if proc[q].state == UNUSED {
          return q, true;
        }
        q := q + 1;
      }
      return q, false;
    }

    /** kill marks the first slot with that pid and rouses it if it sleeps. */
    method Kill(pid: int) returns (found: bool)
      modifies this`proc
      ensures found <==> exists q :: 0 <= q < |old(proc)| && old(proc)[q].pid == pid
      ensures !found ==> proc == old(proc)
      ensures found ==>
                exists q :: 0 <= q < |old(proc)| && FirstPid(old(proc), pid, q) && proc == KillSlot(old(proc), q)
    {
      var q := 0;
      while q < |proc|
        invariant 0 <= q <= |proc| && proc == old(proc) && forall j :: 0 <= j < q ==> proc[j].pid != pid
      {
        if proc[q].pid == pid {
          assert FirstPid(old(proc), pid, q);
          proc := proc[q := proc[q].(killed := true)];
          if proc[q].state == SLEEPING {
            proc := proc[q := proc[q].(state := RUNNABLE)];
          }
          assert proc == KillSlot(old(proc), q);
          return true;
        }
        q := q + 1;
      }
      return false;
    }
  }

  predicate FirstPid(ps: Table, pid: int, q: nat) {
    q < |ps| && ps[q].pid == pid && forall j :: 0 <= j < q ==> ps[j].pid != pid
  }

  function KillSlot(ps: Table, q: nat): (r: Table)
    requires q < |ps|
  {
    ps[q := Rouse(ps[q].(killed := true), ps[q].chan)]
  }

  /** Passing one more slot only ever adds that slot to the zombies seen. */
  lemma ExitScanStep(ps: Table, cur: nat, init: nat, k: nat)
    requires cur < |ps| && k < |ps|
    ensures ZombieChildBelow(ps, cur, k + 1) <==> ZombieChildBelow(ps, cur, k) || IsZombieChild(ps[k], cur)
  {
    if ZombieChildBelow(ps, cur, k) {
      var q :| 0 <= q < k && q < |ps| && ps[q].parent == cur && ps[q].state.ZOMBIE?;
      assert q < k + 1;
    }
  }
}
